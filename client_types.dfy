/** The client's view of the data (frontend/src/types/index.ts). The envelope
    `ApiResponse<T>` is `Envelope.Body<T>`. */
module ClientTypes {

  /** An item as the client receives it. */
  datatype ClientItem = ClientItem(
    id: string,
    name: string,
    description: string,
    userId: string,
    createdAt: string,
    updatedAt: string)

  /** The body of a create or an update request. */
  datatype ItemRequest = ItemRequest(name: string, description: string)

  /** The data of a successful delete: `{message}`. */
  datatype DeleteConfirmation = DeleteConfirmation(message: string)
}
