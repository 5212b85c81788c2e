/**
  The records the client receives from the API (the model files under src/models).
  Optional (`?`) and nullable (`| null`) fields are `Option`s.
 */
module Models {

  datatype Option<T> = None | Some(value: T)

  /** A notification as cached by the notification store. */
  datatype Notification = Notification(
    id: int,
    title: string,
    message: string,
    isRead: bool,
    createdAt: string,
    userId: int,
    eventId: Option<int>)

  /** The closed set of roles of an authenticated principal. */
  datatype Role = Attendee | Organizer | Admin

  /** The authenticated principal. */
  datatype User = User(id: int, name: string, email: string, role: Role, createdAt: Option<string>)

  /** A person listed on an event; the event record types its role as a free string. */
  datatype EventPerson = EventPerson(id: int, name: string, email: string, role: string)

  /** An event; `description` may be null and `status` / `attendees` may be missing. */
  datatype Event = Event(
    id: int,
    title: string,
    description: Option<string>,
    date: string,
    organizerId: int,
    location: Option<string>,
    status: Option<string>,
    attendees: Option<seq<EventPerson>>)
}
