/**
 * The shapes the hosted database client hands back to the components. Every query
 * resolves to a `{ data, error }` pair; which pair a given call yields is decided server
 * side, so the components' models take these values as inputs.
 */
module Backend {
  import opened Optional

  /** An error object of the database client: a PostgREST error code and a message. */
  datatype DbError = DbError(code: string, message: string)

  /** The `{ data, error }` pair a query, a single-row lookup or a procedure call resolves to. */
  datatype Reply<T> = Reply(data: Option<T>, error: Option<DbError>)

  /** An awaited query that either settles with a reply or throws (a network failure, say). */
  datatype Call<T> = Answered(reply: Reply<T>) | CallThrew

  /** The outcome of an insert, update, delete or upsert: only its `error` part is read. */
  datatype WriteResult = WriteOk | WriteFailed(error: DbError)

  /** The authenticated principal as the auth client reports it. */
  datatype AuthUser = AuthUser(id: string, email: Option<string>)

  /** A session of the auth client; `user` is what `session?.user` reads. */
  datatype Session = Session(accessToken: string, user: Option<AuthUser>)

  /** The `app_role` enumeration of the database schema. */
  datatype AppRole = Admin | User | Overseer | Editor

  /** A row of `classroom_announcements` as both the admin panel and the public list select it. */
  datatype AnnouncementRow = AnnouncementRow(
    id: string,
    title: Option<string>,
    text: Option<string>,
    creator_name: Option<string>,
    creation_time: Option<string>,
    created_at: string)

  /** A `profiles` row selected for its `display_name` column only. */
  datatype DisplayNameRow = DisplayNameRow(display_name: Option<string>)
}
