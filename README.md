# custom-extraction-testing, modelled in Dafny

This project models the core of a small document-extraction service.

- A FastAPI endpoint, `/parse_doc` in `main.py`, accepts an uploaded PDF and collects the text of its pages.
- It asks an OpenAI chat model, through `llm_service/LLMService.py`, to fill in a msgspec `Struct`. The model is offered that struct as a "tool", described in JSON Schema.
- It returns the decoded struct, or an HTTP error that says which step failed.
- `llm_service/llmUtils.py` builds the tool from the struct's annotated fields with `struct_to_openai_tool_schema`. It also holds an older translator, `struct_to_llm_schema`, and `strip_json_markers`, which cuts a Markdown code fence off a string.

The modules follow the program:

| module | file | models |
|---|---|---|
| `Wrappers` | `wrappers.dfy` | `Option` and `Result` |
| `Dicts` | `dicts.dfy` | Python's insertion-ordered `dict` with string keys, as a sequence of pairs |
| `JsonValues` | `json.dfy` | JSON values, key paths, and Python's type names for them |
| `Strings` | `strings.dfy` | `str.isspace`, `strip`/`lstrip`/`rstrip`, ASCII `lower`, `", ".join` |
| `LlmUtils` | `llm_utils.dfy` | the two translators, and the fence pattern of `strip_json_markers` |
| `LlmService` | `llm_service.dfy` | the `LLMService` class, the request it posts, and the walk to the tool call's arguments |
| `Upload` | `upload.dfy` | `parse_doc` |

How the Python code is represented:

- **Struct fields.** A struct's fields reach the translators as a list of `Field(name, kind, description)`. This is what `get_type_hints(cls, include_extras=True)` yields, with `Annotated` already peeled off.
- **Translator loops.** Both translators are methods with the source's single loop. Each one is proved equal to a specification function built from one "assign `d[name] = value`" per field. Lemmas then state what the resulting dict holds.
- **`LLMService`.** It is a class whose attributes are set once by `__init__`.
- **Outside code.** The network call and msgspec's decoder are parameters of `extraction`:
  - `send` gives the outcome of `client.post(...)` together with `response.json()`;
  - `decode` gives the outcome of `msgspec.json.decode(...)`.

  `PyPDF2` is represented by `PdfRead`, which is what the reader yields page by page.
- **Failures.** Each failure is an explicit value:
  - Python's `KeyError`, `IndexError`, `TypeError` and `AttributeError` from the subscripts, with CPython 3.11's messages;
  - httpx's `HTTPStatusError` and `RequestError`;
  - the `Exception`s that `extraction` wraps around decoding errors;
  - the `HTTPException`s of `parse_doc`.

## Model

| member | source | states |
|---|---|---|
| LlmUtils.FieldSchema | llm_service/llmUtils.py:76-110 | the property schema of one field is an object whose first key is `type`; its other keys and values are stated by the FieldSchema lemmas below |
| LlmUtils.BuildFieldSchema | llm_service/llmUtils.py:76-110 | the schema built for one field is its type's members (string with `enum` for a Literal, array with `items` for a list, integer/number/boolean, string for anything else) followed by `description` when it is non-empty |
| LlmUtils.ToolSchema | llm_service/llmUtils.py:55-130 | the tool for a class is an object with exactly the keys `type` and `function`; what they hold is stated by `ToolSchemaShape` |
| LlmUtils.StructToOpenAIToolSchema | llm_service/llmUtils.py:55-130 | the loop fills `properties` with one entry per field and `required` with every name in order, and the returned dict is the tool for the lower-cased class name and its description |
| LlmUtils.ToolDescription | llm_service/llmUtils.py:116-117 | the tool's description is the class's docstring when it is non-empty, and otherwise "Extract structured NAME data from document text." |
| LlmUtils.ToolSchemaShape | llm_service/llmUtils.py:119-130 | the tool has `type` "function"; `function.name` is the lower-cased class name; `function.description` is the description above; `parameters.type` is "object"; `parameters.required` lists the field names in order; `parameters.properties` holds the per-field schemas |
| LlmUtils.ToolSchemaKeys | llm_service/llmUtils.py:119-130 | `function` has exactly the keys name, description and parameters, and `parameters` exactly type, properties and required, each in that order |
| LlmUtils.PropertiesMatchFields | llm_service/llmUtils.py:112-113 | with distinct field names, the keys of `properties` are exactly the field names in declaration order, and each field's name maps to that field's schema |
| LlmUtils.FieldSchemaKeys | llm_service/llmUtils.py:78-110 | a property schema has exactly the keys type/enum, type/items or type, followed by description when there is one, and no key twice |
| LlmUtils.FieldSchemaType | llm_service/llmUtils.py:78-107 | `type` is "array" exactly for lists, "integer" exactly for int, "number" exactly for float, "boolean" exactly for bool, and "string" exactly for str, Literal and every other type |
| LlmUtils.FieldSchemaEnum | llm_service/llmUtils.py:78-82 | `enum` is present exactly for a Literal, and lists its choices in order |
| LlmUtils.FieldSchemaItems | llm_service/llmUtils.py:83-97 | `items` is present exactly for a list; its keys are exactly type and enum for a list of a Literal, and type alone otherwise; its `type` is "string"; its `enum` lists the choices |
| LlmUtils.FieldSchemaDescription | llm_service/llmUtils.py:109-110 | `description` is present exactly when the field's description is non-empty, and holds it verbatim |
| LlmUtils.LegacyType | llm_service/llmUtils.py:25-38 | the older translator gives a field a list of choices exactly for a Literal or a list of a Literal, and a type name otherwise |
| LlmUtils.LegacyTypeNames | llm_service/llmUtils.py:25-38 | str, int, float and bool get "string", "integer", "float" and "boolean"; any other type, and a list of a non-Literal, gets its own spelling; choices are the Literal's, at the top level or as the list's item |
| LlmUtils.TranslatorsDifferOnFloat | llm_service/llmUtils.py:33-34 | a float field is "float" to the older translator and "number" in the tool |
| LlmUtils.Note | llm_service/llmUtils.py:42-51 | a field gets a `notes` entry exactly when it has a description or choices |
| LlmUtils.StructToLlmSchema | llm_service/llmUtils.py:6-53 | the loop fills `schema` with one type entry per field, and `notes` with an entry for exactly the fields that have a description or choices |
| LlmUtils.LegacySchemaLookup | llm_service/llmUtils.py:40-51 | every field's name maps to its type (a type name, or the list of choices for a Literal and for a list of a Literal); a field has a note exactly when it has a description or choices |
| LlmUtils.NoteRules | llm_service/llmUtils.py:42-51 | a note exists exactly when there is a description or choices; it starts with the description, and ends with "Choose one or more from: a, b." when there are choices; without choices it is the description itself, and without a description it is that hint alone |
| LlmUtils.TranslatorsAgreeOnChoices | llm_service/llmUtils.py:25-28 | the older translator gives a field the choices `c` exactly when the tool translator lists `c` as its `enum`, at the top level or under `items` |
| LlmUtils.MatchFence | llm_service/llmUtils.py:146-147 | the pattern matches only text whose first non-space characters are a fence; `MatchFenceAssembles` states how a match cuts the text |
| LlmUtils.StripJsonMarkers | llm_service/llmUtils.py:132-151 | the result is never longer than the input, and differs from it only when the pattern matched |
| LlmUtils.CloseFence | llm_service/llmUtils.py:146 | the tail of the pattern matches exactly when the text's last non-space characters are a fence; it cuts the text into a group that does not end in whitespace, whitespace, the fence, and whitespace |
| LlmUtils.MatchFenceAssembles | llm_service/llmUtils.py:146-147 | a match splits the whole input into leading whitespace, fence, optional `json` tag line, group, whitespace, fence and trailing whitespace |
| LlmUtils.MatchFenceOf | llm_service/llmUtils.py:146-147 | fenced text, with or without the tag and with any whitespace around the fences, matches with exactly those parts; the group is the content without its trailing whitespace |
| LlmUtils.StripFenced | llm_service/llmUtils.py:145-150 | such text strips to its content with surrounding whitespace removed |
| LlmUtils.StripInline | llm_service/llmUtils.py:145-150 | "```content```" strips to the stripped content when the content does not start with the tag line |
| LlmUtils.StripNested | llm_service/llmUtils.py:145-150 | content inside two pairs of fences keeps the inner pair after one strip |
| LlmUtils.StripUnchangedIffNoMatch | llm_service/llmUtils.py:149-151 | the input comes back unchanged exactly when the pattern does not match |
| LlmUtils.StripIdempotent | llm_service/llmUtils.py:132-151 | stripping twice is stripping once whenever the first result does not itself start with a fence |
| LlmUtils.StripNotIdempotent | llm_service/llmUtils.py:132-151 | for doubly fenced content the second strip changes the result again |
| LlmUtils.StripUnopened | llm_service/llmUtils.py:149-151 | text whose first non-space characters are not a fence is returned as it is |
| LlmUtils.StripUnclosed | llm_service/llmUtils.py:146-151 | an opening fence with no closing fence at the end leaves the text unchanged |
| LlmService.LLMService.constructor | llm_service/LLMService.py:44-49 | the service keeps the model, the two headers built from the key, and the temperature |
| LlmService.LLMService.Create | llm_service/LLMService.py:41-49 | construction fails with "Please define OPENAI_API_KEY inside your .env environment" exactly when the key is None or empty; otherwise it gives a new service with the model, the key's headers, and the temperature passed in, or 0.7 when none is passed |
| LlmService.Headers | llm_service/LLMService.py:45-48 | the headers have exactly the keys Authorization and Content-Type, in that order |
| LlmService.HeadersCarryKey | llm_service/LLMService.py:45-48 | the headers are exactly Authorization and Content-Type; the bearer token read back is the key; the content type is application/json |
| LlmService.RequestBody | llm_service/LLMService.py:69-81 | the posted body is an object with exactly the keys model, tools, tool_choice and messages, in that order |
| LlmService.RequestBodyShape | llm_service/LLMService.py:69-81 | the posted body has exactly the keys model, tools, tool_choice and messages; it carries the service's model, the one tool, "auto", and the system message followed by the document as the user message; the temperature is not sent |
| LlmService.ChatMessageShape | llm_service/LLMService.py:73-80 | each message carries its role and its content |
| LlmService.LLMService.Extraction | llm_service/LLMService.py:51-102 | `extraction` builds the tool for the struct, posts the body to the chat-completions URL with the service's headers and a 30 s timeout, and returns or raises what `ExtractionOf` says for the outcome |
| LlmService.ToolArguments | llm_service/LLMService.py:87-88 | every failure of the walk to the arguments is a raised Python exception, never an httpx error |
| LlmService.Subscript | llm_service/LLMService.py:87-88 | `v[key]` succeeds exactly on a dict holding the key, and gives its value |
| LlmService.First | llm_service/LLMService.py:87 | `v[0]` succeeds exactly on a non-empty list or string, and gives a list's first element |
| LlmService.GetOr | llm_service/LLMService.py:87 | `v.get(key, default)` succeeds exactly on a dict, and gives the value or the default |
| LlmService.ToolArgumentsFound | llm_service/LLMService.py:87-88 | the walk `["choices"][0]["message"].get("tool_calls", [])[0]["function"]["arguments"]` succeeds exactly on responses of that shape, and finds the arguments there |
| LlmService.NoToolCall | llm_service/LLMService.py:87 | a message without tool calls, the key missing or the list empty, raises "list index out of range" |
| LlmService.NoChoices | llm_service/LLMService.py:87 | a response without `choices` raises KeyError 'choices' |
| LlmService.Decoding | llm_service/LLMService.py:90-97 | decoding succeeds exactly when msgspec returns a value, and gives that value; every decoding failure is re-raised as a plain Exception |
| LlmService.ExtractionOf | llm_service/LLMService.py:83-102 | extraction succeeds only on a 2xx response whose body is JSON; an HTTPStatusError always carries a non-2xx status |
| LlmService.ExtractionSucceeds | llm_service/LLMService.py:83-97 | extraction returns `v` exactly when the status is 2xx, the body is JSON of the expected shape, and its arguments decode to `v` |
| LlmService.TransportErrors | llm_service/LLMService.py:84-102 | only a failed connection raises RequestError, and only a non-2xx status raises HTTPStatusError, which keeps the status and the response text |
| LlmService.DecodeErrors | llm_service/LLMService.py:90-97 | once the arguments are found, a validation error becomes "Validation failed with error: …", any other decoding error "Unexpected error processing response: …", and a decoded value is returned |
| LlmService.MockResponseArguments | llm_service/test_LLMService.py:18-28 | the walk finds the arguments in the mocked response |
| LlmService.MockedExtraction | llm_service/test_LLMService.py:18-34 | against the mocked 200 response, extraction returns what decoding the arguments string gives |
| Upload.FilenameError | main.py:29-32 | every refusal of a filename is an HTTPException with status 400, and an accepted name has at least four characters |
| Upload.FilenameAccepted | main.py:29-32 | a filename passes exactly when it ends in ".pdf" in any mix of letter cases |
| Upload.FilenameRejected | main.py:29-32 | every refusal has status 400; "Malformed file uploaded." is given exactly for a missing or empty name, and every other refused name gets "Only PDF files accepted for now!" |
| Upload.PagesText | main.py:36-38 | the page loop yields text only when no page raised |
| Upload.DocumentText | main.py:34-43 | reading fails only with 400 "File is not a valid PDF or is corrupted.", and always fails when the reader raises |
| Upload.PagesTextFails | main.py:34-43 | the page loop fails exactly when some page's extraction raises |
| Upload.PagesTextAppend | main.py:36-38 | the text of pages is the concatenation, in order, of each page's text (empty for a page without text) |
| Upload.PagesTextSingle | main.py:38 | a single page contributes its text, or nothing when it has none |
| Upload.ReadText | main.py:34-43 | the loop returns the pages' concatenated text, or 400 "File is not a valid PDF or is corrupted." when the reader or a page raises |
| Upload.ErrorResponse | main.py:55-62 | each extraction error becomes an HTTPException: an upstream error keeps its status with detail "LLM service returned an error: " and the response text; a connection error gives 503 with "Could not connect to LLM service: " and its message; any other exception gives 500 with "An unexpected error occurred: " and its message |
| Upload.ErrorResponseInjective | main.py:55-62 | the detail tells the three kinds of extraction failure apart, and gives back the upstream text or the connection error's message exactly |
| Upload.DocumentExtractionFields | main.py:46-49 | the struct declares `introduction` and `architecture_overview` as strings with their two descriptions verbatim, and `communication_protocols` as a list whose item is the Literal of "gRPC", "https", "REST/JSON", in that order, with no description |
| Upload.DocumentExtractionDistinct | main.py:47-49 | the struct's three field names are distinct |
| Upload.ToDict | main.py:51-52 | the payload has exactly the keys introduction, architecture_overview and communication_protocols, in that order |
| Upload.ToDictMatchesTool | main.py:51-52 | the payload's keys are the struct's field names in order, and are exactly the tool's `required` list |
| Upload.ToDictValues | main.py:51-52 | each payload key holds its field's value |
| Upload.ModuleService | main.py:15 | the module-level service uses the model "gpt-4o-mini", the headers of the given key and the default temperature 0.7, and fails exactly when the key is missing or empty |
| Upload.ParseDocOf | main.py:28-66 | no error answer carries a 2xx status; `ParseDocOutcomes` states which answer each input gets |
| Upload.ParseDoc | main.py:28-66 | the handler checks the name, then reads the pages, then asks the service, and answers as `ParseDocOf` says |
| Upload.RejectedBeforeReading | main.py:28-33 | a refused name is answered without regard to the upload's content or the service |
| Upload.ParseDocOutcomes | main.py:28-66 | the answer is 200 exactly when the name is accepted, every page reads and extraction succeeds; a 400 is one of the three upload messages or an upstream 400; any other status is an upstream status, 503 or 500 |
| Upload.MockedUpload | test_main.py:31-55 | "test.pdf" with one page of text, against a mocked 200 response, answers with the decoded struct under "parsed_data" |
| Upload.SuccessPayload | main.py:64-66 | the success payload is an object with the single key `parsed_data` |
| Upload.PayloadFields | main.py:64-66 | the payload's `parsed_data` carries the decoded introduction and protocols |

## Where the code and its documentation differ

The model follows the code in each case.

- `extraction` posts only the tool, `tool_choice` and the two messages. The service's `temperature` is stored but never sent.
- `extraction` does not call `strip_json_markers` on the arguments. They go to the decoder as the model returned them.
- The `HTTPStatusError` handler in `parse_doc` answers with the upstream status. That is any non-2xx status, so a client can get a 3xx or a 4xx from the upstream service, not only a 5xx.
- `strip_json_markers` is not idempotent. Content inside two pairs of fences keeps its inner pair after one strip (`StripNotIdempotent`). Stripping twice equals stripping once whenever the first result does not start with a fence (`StripIdempotent`). A first result that does start with one may still be left alone by the second strip, for example when it has no closing fence.
- `inspect.getdoc` falls back to an inherited docstring. The tool's description for `DocumentExtraction` is then the base class's docstring, not the default sentence. The model therefore takes the docstring as a parameter (`doc`).
- The class docstring says that the service "also adds retry mechanism". `extraction` posts once and raises on the first failure; nothing retries.
- Navigation failures in the response, such as a missing `choices` or no tool call, are not wrapped. They leave `extraction` as plain `KeyError`/`IndexError`/`TypeError`/`AttributeError`, and `parse_doc` answers them with 500.

## Left out

- Network I/O, `httpx.AsyncClient`, `async`/`await`, and the printing and logging in the `except` blocks. The transport is the parameter `send`.
- msgspec's decoding and validation. They are the parameter `decode`, whose outcome is a value, a ValidationError or another error, each with its message.
- PyPDF2. The reader's result is `PdfRead`: it raises, or it yields pages whose `extract_text()` returns text, returns nothing, or raises.
- Floating point. The temperature and the timeout are `real` constants that nothing computes with. JSON numbers are integers.
- Literal types with non-string values, which Python allows. Literal choices are strings here.
- A bare `typing.List` with no item type. The source crashes on `args[0]`, and such a field is not representable. A bare `list` is `Other`.
- Reflection. `get_type_hints`, `get_origin`/`get_args` and `cls.__name__` are replaced by the field list and the class name, and a description that is not a string is not representable.
- `inspect.getdoc`'s own processing, `cleandoc` indentation removal. The docstring arrives already processed.
- Upload size, multipart parsing, and the `UploadFile` object. The filename is an `Option<string>`.
- `compose_prompt_for_extraction_legacy` and the `/` root endpoint.
- Reading `OPENAI_API_KEY` from the environment. `ModuleService` takes the key's value as a parameter, and the handler takes the service as a parameter.
- The non-string branch of `strip_json_markers`, which returns the argument unchanged. Every input here is a string.
- Strings.Lower: ASCII case mapping only. Python's `str.lower` maps all of Unicode. This is exact for the ".pdf" test, since no other character lowercases to '.', 'p', 'd' or 'f'.
- LlmService.Subscript, LlmService.First, LlmService.GetOr: the error messages are CPython 3.11's wording.
- LlmUtils.PropertiesMatchFields, LlmUtils.LegacySchemaLookup: these assume distinct field names. Fields come from a dict, so the source never sees repeated names.
