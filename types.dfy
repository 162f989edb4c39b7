/** The records of types.ts: a spin's topic, one track (an "audiocast") and its generation status. */
module Types {
  import opened Wrappers

  /** A track moves pending -> generating -> ready | error. */
  datatype TrackStatus = Pending | Generating | Ready | Error

  /** `imageUrl == ""` means "draw the generated placeholder". */
  datatype Topic = Topic(id: string, title: string, imageUrl: string, description: Option<string>)

  /** One track; `audioUrl` stays `""` until the track is ready. */
  datatype Audiocast = Audiocast(
    id: string,
    topicId: string,
    title: string,
    description: Option<string>,
    imageUrl: string,
    audioUrl: string,
    status: TrackStatus)

  /** Which screen the app shows. */
  datatype ViewState = Browse | TopicDetail

  /** JavaScript truthiness of a `string | null` pointer: present and non-empty. */
  predicate IsSet(p: Option<string>) {
    p.Some? && p.value != ""
  }
}
