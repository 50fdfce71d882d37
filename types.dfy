/** Values shared by the controller's parts: the optional value, the editor
    languages, the requests sent over the backend bridge and the toasts shown. */
module Types {

  /** An optional value; `None` stands for JavaScript's `undefined`. */
  datatype Option<+T> = None | Some(value: T)

  /** The language of a Monaco model: completion providers and tabs are keyed by it. */
  datatype Language = Pug | Typescript | Scss | Python

  /** One call over the backend bridge. `Update` carries the file content,
      which is `None` when the tab had no data to send. */
  datatype Request =
    | Load(id: string)
    | Read(path: string)
    | Update(path: string, code: Option<string>)
    | Build(path: string)

  /** A notification as emitted; its rendering is not modelled. */
  datatype Toast = Info(message: string) | Success(message: string) | Error(message: string)

  /** The response code the backend uses for success; every other code is a failure. */
  const Ok: int := 200
}
