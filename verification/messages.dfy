/** The chat turns the widget keeps and the server sends to the model. */
module Messages {
  datatype Role = System | User | Assistant

  /** `{ role, content }`. */
  datatype Message = Message(role: Role, content: string)
}
