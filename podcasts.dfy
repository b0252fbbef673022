/** The show and episode records the aggregator passes around (the `Pod` and `Episode` structs). */
module Podcasts {
  import opened Times

  datatype Episode = Episode(
    title: string,
    description: string,
    media: string,
    mediaType: string,
    thumbnail: string,
    id: string,
    published: DateTime,
    podId: string)

  datatype Pod = Pod(
    title: string,
    description: string,
    albumArt: string,
    creator: string,
    categories: seq<string>,
    rss: string,
    id: string,
    added: DateTime,
    link: string,
    episodes: seq<Episode>)
}
