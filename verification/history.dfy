/** The browser's session history as the gallery uses it: a list of entry
    paths and the index of the current one. `pushState` drops every entry
    after the current one and appends the new one; `replaceState` overwrites
    the current entry; back and forward move the index. */
module BrowserHistory {

  datatype History = History(entries: seq<string>, index: nat)

  predicate Valid(h: History) {
    h.index < |h.entries|
  }

  /** The path of the current entry, as it was passed to `pushState` or
      `replaceState`; the browser's URL parsing of it is not modelled. */
  function Current(h: History): string
    requires Valid(h)
  {
    h.entries[h.index]
  }

  /** A fresh tab opened at `path`. */
  function Start(path: string): (h: History)
    ensures Valid(h) && Current(h) == path && |h.entries| == 1
  {
    History([path], 0)
  }

  /** `history.pushState(null, '', path)` */
  function Push(h: History, path: string): (r: History)
    requires Valid(h)
    ensures Valid(r) && Current(r) == path
    ensures r.index == h.index + 1 && |r.entries| == h.index + 2
    ensures forall i :: 0 <= i <= h.index ==> r.entries[i] == h.entries[i]
    ensures h.index == |h.entries| - 1 ==> |r.entries| == |h.entries| + 1
  {
    History(h.entries[..h.index + 1] + [path], h.index + 1)
  }

  /** `history.replaceState(null, '', path)` */
  function Replace(h: History, path: string): (r: History)
    requires Valid(h)
    ensures Valid(r) && Current(r) == path
    ensures r.index == h.index && |r.entries| == |h.entries|
    ensures forall i :: 0 <= i < |h.entries| && i != h.index ==> r.entries[i] == h.entries[i]
  {
    History(h.entries[h.index := path], h.index)
  }

  predicate CanGoBack(h: History) {
    h.index > 0
  }

  predicate CanGoForward(h: History) {
    h.index + 1 < |h.entries|
  }

  /** The back button, when there is an entry to go back to. */
  function Back(h: History): (r: History)
    requires Valid(h) && CanGoBack(h)
    ensures Valid(r) && r.entries == h.entries && r.index == h.index - 1
  {
    h.(index := h.index - 1)
  }

  /** The forward button, when there is an entry to go forward to. */
  function Forward(h: History): (r: History)
    requires Valid(h) && CanGoForward(h)
    ensures Valid(r) && r.entries == h.entries && r.index == h.index + 1
  {
    h.(index := h.index + 1)
  }

  /** The back button undoes exactly one push, and forward redoes it. */
  lemma PushThenBack(h: History, path: string)
    requires Valid(h)
    ensures CanGoBack(Push(h, path))
    ensures Current(Back(Push(h, path))) == Current(h)
    ensures CanGoForward(Back(Push(h, path)))
    ensures Forward(Back(Push(h, path))) == Push(h, path)
  {
  }
}
