/** The records the planner stores and exchanges (types.ts). Optional
    properties of the TypeScript interfaces become `Option` fields. */
module Types {
  import opened Wrappers

  /** The `type` tag of an attachment: an uploaded file or a web link. */
  datatype AttachmentKind = File | Link

  /** `path` is a URL for links and an encoded data string for files; `size`
      (in bytes) is only set for files. */
  datatype Attachment = Attachment(
    id: string,
    name: string,
    kind: AttachmentKind,
    path: string,
    size: Option<nat>)

  /** `date` is a `yyyy-MM-dd` day key, `startTime`/`endTime` are `HH:mm`
      strings, `color` is the id of a palette entry. */
  datatype CourseEvent = CourseEvent(
    id: string,
    title: string,
    location: Option<string>,
    date: string,
    startTime: string,
    endTime: string,
    color: string,
    attachments: Option<seq<Attachment>>)

  /** A colour of the palette: its id and the style classes that render it. */
  datatype ColorOption = ColorOption(
    id: string,
    name: string,
    bgClass: string,
    borderClass: string,
    textClass: string,
    dotClass: string)

  /** A signed-in user; `lastLogin` is the time stamp of the login. */
  datatype User = User(username: string, lastLogin: Option<string>)

  /** What a thrown error carries: a message, or the browser's refusal of a
      storage write, or a stored value that does not parse. */
  datatype Error = Thrown(message: string) | QuotaExceeded | Unparseable
}
