/** The shared record types of the photo booth (types.ts). */
module Types {

  /** One themed destination of the scene catalogue. */
  datatype Scene = Scene(
    id: string,
    title: string,
    description: string,
    promptModifier: string,
    icon: string,
    color: string)

  /** The step of the flow that is on screen. */
  datatype AppState = Start | Camera | Preview | Processing | Result
}
