/** The track record shared by the search client and the player
    (`VideoItem` in types.ts). */
module Types {
  import opened Wrappers

  /** The two kinds of item a `VideoItem` can describe. */
  datatype Kind = Video | Playlist

  /** One playable item. Its identity is `id`; the player logic looks at
      nothing else. `thumbnailUrl` and `kind` are optional because the
      search mapper can leave the first undefined and never sets the
      second, although the declared type marks both as present. */
  datatype VideoItem = VideoItem(
    id: string,
    title: string,
    channelTitle: string,
    thumbnailUrl: Option<string>,
    kind: Option<Kind>
  )
}
