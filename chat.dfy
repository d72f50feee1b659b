/** The chat messages sent to the language models, as role/content pairs. */
module Chat {
  datatype Message = Message(role: string, content: string)
}
