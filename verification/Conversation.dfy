/** The parts of a Claude request that context management reads or changes. */
module Conversation {
  import opened Wrappers

  /** JSON that no edit looks into is carried as text in `rest`. */
  datatype Block =
    | ToolUse(id: Option<string>, name: Option<string>, input: string, rest: string)
    | ToolResult(toolUseId: Option<string>, output: Field, rest: string)
    | Thinking(redacted: bool, rest: string)
    | Compaction(summary: Field, rest: string)
    | Other(rest: string)

  /** The `content` field of a block. */
  datatype Field = Missing | Null | Text(text: string) | Structured(json: string)

  /** Message content is an array of blocks, or something else (usually a string). */
  datatype Content = Plain(text: string) | Blocks(blocks: seq<Block>)

  datatype Role = Assistant | System | OtherRole(name: string)

  datatype Message = Message(role: Role, content: Content, effort: Option<string>, rest: string)

  function BlocksOf(m: Message): seq<Block> {
    if m.content.Blocks? then m.content.blocks else []
  }

  function WithBlocks(m: Message, blocks: seq<Block>): Message {
    if m.content.Blocks? then m.(content := Blocks(blocks)) else m
  }
}
