/** The JSON-RPC identifiers shared by the app-server protocol. */
module Protocol {

  datatype RequestId = IntegerId(number: int) | StringId(text: string)
}
