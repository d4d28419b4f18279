/**
 * What `localStorage.getItem(key)` followed by `JSON.parse` can hand back for a
 * key that is meant to hold a JSON list: the list, text that does not parse, or a
 * JSON value that parses but is not a list. A missing key is a key absent from
 * the storage map.
 */
module Storage {
  datatype Stored<T> = Items(items: seq<T>) | Unparsable | NotAList

  /** The comment list of one video lives under `comments_<videoId>` (CommentSection and useSimpleComments alike). */
  function CommentsKey(videoId: string): (k: string)
    ensures |k| == 9 + |videoId| && k[9..] == videoId
    ensures k[..9] == "comments_"
  {
    "comments_" + videoId
  }

  /** Distinct videos never share a storage key. */
  lemma CommentsKeyInjective(a: string, b: string)
    requires CommentsKey(a) == CommentsKey(b)
    ensures a == b
  {
    assert a == CommentsKey(a)[9..];
  }
}
