/**
  What the network answers. The model never performs a request: each flow
  receives a `Network`, which says for every URL what a GET of it yields,
  already past JSON decoding for the two release endpoints.
 */
module Http {
  import opened Fs

  /** A GET of a JSON endpoint followed by decoding into a `T`. */
  datatype Response<T> =
    | TransportFailed   // http.Get returned an error
    | Malformed         // the body did not decode into T
    | Decoded(value: T)

  /**
    A GET of a download URL streamed into a file. `delivered` are the bytes
    that reached the file; `complete` is false when the stream (or the write)
    failed after them.
   */
  datatype Download =
    | GetFailed
    | Body(delivered: seq<byte>, complete: bool)

  datatype GHAsset = GHAsset(name: string, url: string)

  /** The decoded body of GitHub's "latest release" endpoint. */
  datatype GHRelease = GHRelease(tagName: string, assets: seq<GHAsset>)

  datatype GLLink = GLLink(directAssetUrl: string)

  /** One element of the decoded body of GitLab's releases-list endpoint. */
  datatype GLRelease = GLRelease(tagName: string, count: int, links: seq<GLLink>)

  datatype Network = Network(
    github: string -> Response<GHRelease>,
    gitlab: string -> Response<seq<GLRelease>>,
    download: string -> Download)
}
