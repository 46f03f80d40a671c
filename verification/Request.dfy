/** The canonical request, as the normaliser and the token estimators see it. */
module Request {
  import opened Wrappers
  import S = Stream

  datatype Ttl = Default | FiveMinutes | OneHour

  /** A caller-placed cache breakpoint, or none. */
  type CacheControl = Option<Ttl>

  datatype Image = Image(mediaType: string, data: string, cacheControl: CacheControl)
  datatype File = File(mediaType: string, data: string, filename: Option<string>)
  datatype Native = Native(provider: string, blockType: string, data: S.Fields, cacheControl: CacheControl)

  datatype Block =
    | TextBlock(text: string, textCache: CacheControl)
    | ImageBlock(image: Image)
    | ThinkingBlock(thinking: string, signature: Option<string>)
    | ToolUse(id: string, name: string, input: S.Json, useCache: CacheControl)
    | ToolResult(toolUseId: string, content: string, images: seq<Image>, files: seq<File>, natives: seq<Native>,
                 isError: bool, resultCache: CacheControl)
    | NativeBlock(native: Native)

  datatype Role = User | Assistant | System

  /** A turn of the conversation; its content is a list of blocks. */
  datatype Turn<B> = Message(role: Role, content: seq<B>)

  type Message = Turn<Block>

  datatype Tool =
    | Portable(name: string, description: Option<string>, schema: S.Fields, cacheControl: CacheControl)
    | Provided(name: string, kind: string, wire: S.Fields, cacheControl: CacheControl)

  /** Absent tools and an absent system prompt are empty lists. */
  datatype ChatRequest = ChatRequest(tools: seq<Tool>, system: seq<Block>, messages: seq<Message>)

  /** A thinking block cannot carry a breakpoint. */
  function CacheControlOf(block: Block): CacheControl {
    match block
    case TextBlock(_, cache) => cache
    case ImageBlock(image) => image.cacheControl
    case ThinkingBlock(_, _) => None
    case ToolUse(_, _, _, cache) => cache
    case ToolResult(_, _, _, _, _, _, cache) => cache
    case NativeBlock(native) => native.cacheControl
  }
}
