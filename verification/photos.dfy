/** The `Photo` record the feed produces and the gallery displays
    (src/types/index.d.ts). */
module Photos {

  datatype Urls = Urls(full: string, raw: string, regular: string, small: string, smallS3: string, thumb: string)

  datatype Author = Author(username: string, avatar: string)

  /** `new Date(updated_at)` is kept opaque: only the timestamp text it was built from. */
  datatype Date = Date(stamp: string)

  datatype Photo = Photo(
    id: string,
    urls: Urls,
    title: string,
    author: Author,
    description: string,
    topic: string,
    date: Date,
    likes: int,
    slug: string
  )

  /** `photos.some(photo => photo.id === id)` */
  predicate HasId(photos: seq<Photo>, id: string) {
    exists i :: 0 <= i < |photos| && photos[i].id == id
  }

  /** No two photos of the list share an id. */
  predicate DistinctIds(photos: seq<Photo>) {
    forall i, j :: 0 <= i < j < |photos| ==> photos[i].id != photos[j].id
  }

  /** Adding photos at the end never hides an id that was already there. */
  lemma HasIdAppend(a: seq<Photo>, b: seq<Photo>, id: string)
    ensures HasId(a + b, id) <==> HasId(a, id) || HasId(b, id)
  {
    if HasId(a + b, id) {
      var i :| 0 <= i < |a + b| && (a + b)[i].id == id;
      if i >= |a| {
        assert b[i - |a|] == (a + b)[i];
      }
    }
    if HasId(a, id) {
      var i :| 0 <= i < |a| && a[i].id == id;
      assert (a + b)[i] == a[i];
    }
    if HasId(b, id) {
      var i :| 0 <= i < |b| && b[i].id == id;
      assert (a + b)[|a| + i] == b[i];
    }
  }
}
