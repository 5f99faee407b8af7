/** Shared vocabulary: optional values, identifiers, JavaScript truthiness
  * of request fields and the HTTP status codes the controllers answer with. */
module Common {

  datatype Option<T> = None | Some(value: T)

  /** An operation that either yields a value or fails with an error message. */
  datatype Result<T> = Ok(value: T) | Err(message: string)

  /** A MongoDB ObjectId, compared through its string form. */
  type Id = string

  /** JavaScript truthiness of an optional string (`undefined`, `null` and `""` are falsy). */
  predicate Truthy(o: Option<string>)
  {
    o.Some? && o.value != ""
  }

  /** A multipart or JSON body field that the server reads either as a
    * comma separated string or as an array of strings. */
  datatype Field = Missing | Csv(text: string) | Items(items: seq<string>)

  /** What Mongoose's `validate()` reports before a document is written: a
    * `pre('validate')` hook error, a `ValidationError` from the schema's
    * validators, or success. */
  datatype Validation = Passed | ValidationFailed | HookFailed(message: string)

  /** The twelve academic categories: the enum of `Post.categories` and of `User.major`. */
  const MAJOR_CATEGORIES: seq<string> := ["수학", "물리학", "화학", "생물학", "컴퓨터공학", "전자공학",
    "기계공학", "경영학", "경제학", "심리학", "사회학", "기타"]

  /** The catch-all category, the default of `Post.categories`, `Article.category` and `User.major`. */
  const OTHER_CATEGORY: string := "기타"

  const OK: int := 200
  const CREATED: int := 201
  const BAD_REQUEST: int := 400
  const UNAUTHORIZED: int := 401
  const FORBIDDEN: int := 403
  const NOT_FOUND: int := 404
  const SERVER_ERROR: int := 500
}
