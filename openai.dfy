/** The OpenAI client: the category-specific system prompt, the user prompt
  * built from a post, and the checks around the chat-completion request.
  * The HTTP call itself is the parameter `send`, which maps the request the
  * client would make to the reply it gets. */
module OpenAI {
  import opened Common
  import Strings

  const PLACEHOLDER_KEY: string := "your_openai_api_key"
  const ERROR_PREFIX: string := "AI 응답 생성 중 오류: "
  const MISSING_KEY_ERROR: string := "유효한 OpenAI API 키가 설정되지 않았습니다."
  const NO_CHOICES_ERROR: string := "OpenAI API에서 유효한 응답을 받지 못했습니다: "
  const MODEL: string := "gpt-3.5-turbo"
  const MAX_TOKENS: nat := 500

  const BASE_PROMPT: string := "당신은 전공 문제 공유 커뮤니티의 전문 도우미 AI입니다. 사용자가 게시한 게시물의 전공 관련 문제나 개념에 대해 유용하고 정확하며 문제 해결에 직접적으로 도움이 되는 정보를 제공하세요. 단순히 정답을 제시하기보다 사용자가 개념을 깊이 이해하고 스스로 해결 방안을 찾도록 안내하는 데 집중해 주세요."

  /** The category-specific additions; `'기타'` has none. */
  const CATEGORY_PROMPTS: map<string, string> := map[
    "수학" := "수학 문제 풀이 과정을 단계별로 명확히 설명하고, 다른 접근 방식이나 관련 개념을 제시하여 이해를 도와주세요.",
    "물리학" := "물리 문제 해결에 필요한 개념을 쉬운 예시와 함께 설명하고, 공식 적용 방법이나 실험적 접근에 대한 가이드를 제공하여 문제 해결 능력을 향상시켜주세요.",
    "화학" := "화학 문제 해결에 필요한 반응, 개념, 실험 과정을 정확히 설명하고, 관련 계산 방법이나 안전 주의사항을 포함하여 종합적인 이해를 도와주세요.",
    "생물학" := "생물학 개념을 최신 연구를 반영하여 설명하고, 문제 해결에 필요한 경우 실험 설계, 데이터 분석 방법 등에 대한 관점을 제시해주세요.",
    "컴퓨터공학" := "컴퓨터공학 문제 (코드, 알고리즘, 기술 개념 등)에 대해 실용적인 해결책이나 구현 예시를 제공하고, 디버깅 방법 또는 성능 개선 방안에 대한 조언을 포함하여 문제 해결을 지원하세요.",
    "전자공학" := "전자공학 문제 해결에 필요한 회로, 개념, 설계 원리를 명확히 설명하고, 관련 계산 방법이나 회로 분석/설계에 대한 가이드를 제공해주세요.",
    "기계공학" := "기계공학 문제 해결에 필요한 시스템, 원리, 설계 지식을 정확히 설명하고, 관련 계산, 모델링, 시뮬레이션 등에 대한 관점을 제시하여 문제 해결 능력을 향상시켜주세요.",
    "경영학" := "경영학 문제 (사례 분석, 전략 수립 등)에 대해 다양한 이론 및 개념을 적용하여 분석을 돕고, 실용적인 해결 방안 도출을 위한 조언을 제공해주세요.",
    "경제학" := "경제학 문제 (이론 적용, 현상 분석 등)에 대해 관련 이론과 데이터를 바탕으로 균형 잡힌 설명을 제공하고, 문제 해결을 위한 다양한 관점을 제시하여 깊이 있는 이해를 도와주세요.",
    "심리학" := "심리학 문제 (사례 분석, 현상 이해 등)에 대해 과학적 근거가 있는 이론과 개념을 바탕으로 설명하고, 문제 해결을 위한 분석 방법이나 관련 연구를 제시하여 깊이 있는 이해를 도와주세요.",
    "사회학" := "사회학 문제 (현상 분석, 이론 적용 등)에 대해 다양한 이론과 관점을 제시하여 이해를 돕고, 문제 해결을 위한 분석 프레임워크나 관련 연구 방법론에 대한 관점을 제시해주세요."
  ]

  /** The prompt text of a category, empty for an unmapped one. */
  function CategoryText(category: string): string
  {
    if category in CATEGORY_PROMPTS then CATEGORY_PROMPTS[category] else ""
  }

  /** `createSystemPrompt`: the base prompt, a space, and the category text. */
  function SystemPrompt(category: string): (r: string)
    ensures Strings.StartsWith(r, BASE_PROMPT + " ")
    ensures category !in CATEGORY_PROMPTS ==> r == BASE_PROMPT + " "
    ensures category in CATEGORY_PROMPTS ==> r[|BASE_PROMPT| + 1..] == CATEGORY_PROMPTS[category]
  {
    BASE_PROMPT + " " + CategoryText(category)
  }

  /** Exactly the eleven post categories other than `'기타'` have their own prompt text. */
  lemma CategoryPromptsCoverMajors()
    ensures forall c :: c in CATEGORY_PROMPTS ==> c in MAJOR_CATEGORIES
    ensures forall c :: c in MAJOR_CATEGORIES ==> (c in CATEGORY_PROMPTS <==> c != OTHER_CATEGORY)
  {
  }

  /** The catch-all category gets the base prompt alone. */
  lemma OtherCategoryPrompt()
    ensures SystemPrompt(OTHER_CATEGORY) == BASE_PROMPT + " "
  {
    assert OTHER_CATEGORY !in CATEGORY_PROMPTS.Keys;
  }

  const USER_PROMPT_HEAD: string := "다음 게시글에 대한 도움이 되는 견해나 추가 정보를 제공해주세요:\n    \n제목: "
  const USER_PROMPT_TAIL: string := "\n\n응답은 친절하고 정보가 풍부하게 작성해주시고, 약 300-500자 정도로 작성해주세요. 질문 내용에 오류가 있다면 정중하게 수정 정보를 제공해주세요."

  /** `createUserPrompt`: a fixed template around the title, the category,
    * the tags joined by `", "` and the content, in that order. */
  function UserPrompt(content: string, title: string, category: string, tags: seq<string>): string
  {
    USER_PROMPT_HEAD + title + "\n카테고리: " + category + "\n태그: " + Strings.Join(tags, ", ") +
    "\n\n내용:\n" + content + USER_PROMPT_TAIL
  }

  /** The user prompt carries the post's title, category, joined tags and content. */
  lemma UserPromptEmbeds(content: string, title: string, category: string, tags: seq<string>)
    ensures var r := UserPrompt(content, title, category, tags);
      Strings.Contains(r, title) && Strings.Contains(r, category) &&
      Strings.Contains(r, Strings.Join(tags, ", ")) && Strings.Contains(r, content)
  {
    Strings.FillEmbeds(USER_PROMPT_HEAD, title, "\n카테고리: ", category, "\n태그: ", Strings.Join(tags, ", "),
                       "\n\n내용:\n", content, USER_PROMPT_TAIL);
  }

  /** The post fields both prompts are built from. */
  datatype PromptInput = PromptInput(content: string, title: string, category: string, tags: seq<string>)

  /** One entry of the request's `messages`. */
  datatype Message = Message(role: string, content: string)

  /** The chat-completion request the client sends: the model, the post its
    * messages are built from, the token limit and the `Authorization` header. */
  datatype ChatRequest = ChatRequest(model: string, input: PromptInput, maxTokens: nat, authorization: string)

  /** The request's `messages`: the system prompt, then the user prompt. */
  function Messages(q: ChatRequest): (m: seq<Message>)
    ensures |m| == 2 && m[0].role == "system" && m[1].role == "user"
    ensures Strings.StartsWith(m[0].content, BASE_PROMPT + " ")
    ensures q.input.category in CATEGORY_PROMPTS ==> m[0].content[|BASE_PROMPT| + 1..] == CATEGORY_PROMPTS[q.input.category]
    ensures Strings.Contains(m[1].content, q.input.title) && Strings.Contains(m[1].content, q.input.content)
  {
    var i := q.input;
    UserPromptEmbeds(i.content, i.title, i.category, i.tags);
    [Message("system", SystemPrompt(i.category)), Message("user", UserPrompt(i.content, i.title, i.category, i.tags))]
  }

  /** What the API call comes back with: a transport or HTTP error with its
    * message, or a body with its `choices` (each reduced to its message
    * content) and its JSON text. */
  datatype ApiReply = Failed(message: string) | Replied(choices: seq<string>, body: string)

  /** The request for a post, built only once the key has been checked. */
  function Request(apiKey: string, content: string, title: string, category: string, tags: seq<string>): (q: ChatRequest)
    ensures q.model == MODEL && q.maxTokens == MAX_TOKENS && q.authorization == "Bearer " + apiKey
    ensures q.input.content == content && q.input.title == title && q.input.category == category && q.input.tags == tags
  {
    ChatRequest(MODEL, PromptInput(content, title, category, tags), MAX_TOKENS, "Bearer " + apiKey)
  }

  /** Whether the configured key may be used: present, non-empty and not the placeholder. */
  predicate UsableKey(apiKey: Option<string>)
  {
    Truthy(apiKey) && apiKey.value != PLACEHOLDER_KEY
  }

  /** `generateResponse`: every failure comes back with the common prefix;
    * success is the first choice's content. */
  function GenerateResponse(apiKey: Option<string>, content: string, title: string, category: string,
                            tags: seq<string>, send: ChatRequest -> ApiReply): (r: Result<string>)
    ensures !UsableKey(apiKey) ==> r == Err(ERROR_PREFIX + MISSING_KEY_ERROR)
    ensures r.Err? ==> Strings.StartsWith(r.message, ERROR_PREFIX)
    ensures UsableKey(apiKey) ==>
      var reply := send(Request(apiKey.value, content, title, category, tags));
      (r.Ok? <==> reply.Replied? && reply.choices != []) &&
      (r.Ok? ==> r.value == reply.choices[0]) &&
      (reply.Replied? && reply.choices == [] ==> r == Err(ERROR_PREFIX + NO_CHOICES_ERROR + reply.body)) &&
      (reply.Failed? ==> r == Err(ERROR_PREFIX + reply.message))
  {
    if !UsableKey(apiKey) then Err(ERROR_PREFIX + MISSING_KEY_ERROR)
    else
      match send(Request(apiKey.value, content, title, category, tags))
      case Failed(m) => Err(ERROR_PREFIX + m)
      case Replied(choices, body) =>
        if choices == [] then Err(ERROR_PREFIX + NO_CHOICES_ERROR + body) else Ok(choices[0])
  }

  /** Without a usable key no request is made: the outcome does not depend on the API at all. */
  lemma NoRequestWithoutKey(apiKey: Option<string>, content: string, title: string, category: string,
                            tags: seq<string>, send1: ChatRequest -> ApiReply, send2: ChatRequest -> ApiReply)
    requires !UsableKey(apiKey)
    ensures GenerateResponse(apiKey, content, title, category, tags, send1)
         == GenerateResponse(apiKey, content, title, category, tags, send2)
  {
  }
}
