/** The wiki export's records: a project holds pages, a page holds raw lines,
    and a chunk is the unit written to the search store. */
module Scrapbox {
  import opened Wrappers
  import opened Json

  datatype Page = Page(id: string, title: string, lines: seq<string>, updated: int, pin: int)

  datatype Project = Project(name: string, displayName: string, pages: seq<Page>)

  /** `id` is `{page_id}_{chunk_index}`; `sparseVector` stays `None` until
      an encoder reply is assigned to it. */
  datatype Chunk = Chunk(
    id: string,
    pageId: string,
    title: string,
    text: string,
    url: string,
    updated: int,
    sparseVector: Option<Json>)
}
