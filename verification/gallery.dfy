/** The selection and overlay state machine of
    src/components/PhotoGallery/index.tsx.

    The component holds the selected photo and whether the detail overlay is
    shown, and keeps the browser history in step with them: a click pushes
    `/photos/<slug>`, closing replaces the current entry with `/photos`, a
    popstate event hides the overlay, and an effect reads the address bar and
    opens the photo whose slug is its last segment. That effect is modelled as
    the explicit operation `Resolve`, run whenever the caller chooses. */
module Gallery {
  import opened Optional
  import opened Photos
  import opened BrowserHistory

  /** The base gallery location that closing the overlay writes. */
  const GalleryPath: string := "/photos"

  /** The deep link a click pushes for `p`. */
  function PhotoPath(p: Photo): string {
    GalleryPath + "/" + p.slug
  }

  datatype GalleryState = GalleryState(selected: Option<Photo>, showModal: bool, history: History)

  /** The overlay can only be shown for a selected photo. */
  predicate Inv(g: GalleryState) {
    Valid(g.history) && (g.showModal ==> g.selected.Some?)
  }

  /** The render condition `showModal && selectedPhoto` of the detail overlay. */
  predicate OverlayShown(g: GalleryState) {
    g.showModal && g.selected.Some?
  }

  /** The component as first rendered in a tab opened at `path`. */
  function Init(path: string): (g: GalleryState)
    ensures Inv(g)
    ensures g.selected.None? && !g.showModal && !OverlayShown(g)
    ensures Current(g.history) == path
  {
    GalleryState(None, false, Start(path))
  }

  /** `handlePhotoClick(p)` */
  function Click(g: GalleryState, p: Photo): (r: GalleryState)
    requires Valid(g.history)
    ensures Inv(r) && OverlayShown(r) && r.selected == Some(p)
    ensures Current(r.history) == "/photos/" + p.slug
    ensures r.history.index == g.history.index + 1
    ensures forall i :: 0 <= i <= g.history.index ==> r.history.entries[i] == g.history.entries[i]
    ensures !CanGoForward(g.history) ==> |r.history.entries| == |g.history.entries| + 1
  {
    GalleryState(Some(p), true, Push(g.history, PhotoPath(p)))
  }

  /** `closeModal()` */
  function Close(g: GalleryState): (r: GalleryState)
    requires Valid(g.history)
    ensures Inv(r) && !OverlayShown(r) && r.selected.None? && !r.showModal
    ensures Current(r.history) == "/photos"
    ensures r.history.index == g.history.index && |r.history.entries| == |g.history.entries|
    ensures forall i :: 0 <= i < |g.history.entries| && i != g.history.index ==>
      r.history.entries[i] == g.history.entries[i]
  {
    GalleryState(None, false, Replace(g.history, GalleryPath))
  }

  /** The `popstate` listener: it hides the overlay and nothing else. */
  function PopState(g: GalleryState): (r: GalleryState)
    ensures !r.showModal && !OverlayShown(r)
    ensures r.selected == g.selected && r.history == g.history
    ensures Inv(g) ==> Inv(r)
  {
    g.(showModal := false)
  }

  /** The browser's back button: the index moves and `popstate` fires; with
      nothing to go back to, nothing happens. */
  function GoBack(g: GalleryState): (r: GalleryState)
    requires Valid(g.history)
    ensures Valid(r.history) && r.selected == g.selected && r.history.entries == g.history.entries
    ensures CanGoBack(g.history) ==> !r.showModal && r.history.index == g.history.index - 1
    ensures !CanGoBack(g.history) ==> r == g
  {
    if CanGoBack(g.history) then PopState(g.(history := Back(g.history))) else g
  }

  /** The browser's forward button, symmetric to `GoBack`. */
  function GoForward(g: GalleryState): (r: GalleryState)
    requires Valid(g.history)
    ensures Valid(r.history) && r.selected == g.selected && r.history.entries == g.history.entries
    ensures CanGoForward(g.history) ==> !r.showModal && r.history.index == g.history.index + 1
    ensures !CanGoForward(g.history) ==> r == g
  {
    if CanGoForward(g.history) then PopState(g.(history := Forward(g.history))) else g
  }

  /** `path.split('/').pop()`: the text after the last `/`, or the whole path
      when it has none. */
  function LastSegment(path: string): (seg: string)
    ensures |seg| <= |path| && seg == path[|path| - |seg|..]
    ensures '/' !in seg
    ensures |seg| < |path| ==> path[|path| - |seg| - 1] == '/'
  {
    if path == [] then []
    else if path[|path| - 1] == '/' then []
    else LastSegment(path[..|path| - 1]) + [path[|path| - 1]]
  }

  /** `photos[k]` is the first photo of the list whose slug is `slug`. */
  predicate FirstWithSlugAt(photos: seq<Photo>, slug: string, k: nat) {
    && k < |photos|
    && photos[k].slug == slug
    && forall j :: 0 <= j < k ==> photos[j].slug != slug
  }

  /** No photo of the list has slug `slug`. */
  predicate NoSlug(photos: seq<Photo>, slug: string) {
    forall j :: 0 <= j < |photos| ==> photos[j].slug != slug
  }

  /** The index `photos.find(p => p.slug === slug)` stops at. */
  function FindSlug(photos: seq<Photo>, slug: string): (k: Option<nat>)
    ensures k.Some? ==> FirstWithSlugAt(photos, slug, k.value)
    ensures k.None? <==> NoSlug(photos, slug)
  {
    if photos == [] then None
    else if photos[0].slug == slug then Some(0)
    else match FindSlug(photos[1..], slug)
      case Some(k) => Some(k + 1)
      case None => None
  }

  /** The mount/URL effect: the photo named by the address bar's last segment
      is selected and shown; an unknown slug leaves everything as it was. */
  function Resolve(g: GalleryState, photos: seq<Photo>): (r: GalleryState)
    requires Valid(g.history)
    ensures r.history == g.history
    ensures Inv(g) ==> Inv(r)
    ensures NoSlug(photos, LastSegment(Current(g.history))) ==> r == g
    ensures !NoSlug(photos, LastSegment(Current(g.history))) ==>
      && OverlayShown(r)
      && exists k: nat :: FirstWithSlugAt(photos, LastSegment(Current(g.history)), k) && r.selected == Some(photos[k])
  {
    match FindSlug(photos, LastSegment(Current(g.history)))
    case Some(k) => g.(selected := Some(photos[k]), showModal := true)
    case None => g
  }

  /** Everything that can happen to the component. */
  datatype Event =
    | ClickPhoto(photo: Photo)
    | CloseOverlay
    | BackButton
    | ForwardButton
    | CheckLocation(photos: seq<Photo>)

  function Step(g: GalleryState, e: Event): (r: GalleryState)
    requires Inv(g)
    ensures Inv(r)
  {
    match e
    case ClickPhoto(p) => Click(g, p)
    case CloseOverlay => Close(g)
    case BackButton => GoBack(g)
    case ForwardButton => GoForward(g)
    case CheckLocation(photos) => Resolve(g, photos)
  }

  /** The state after a sequence of events. Every such state keeps `Inv`. */
  function Run(g: GalleryState, events: seq<Event>): (r: GalleryState)
    requires Inv(g)
    ensures Inv(r)
    decreases |events|
  {
    if events == [] then g else Run(Step(g, events[0]), events[1..])
  }

  // ---------------------------------------------------------------------
  // Properties
  // ---------------------------------------------------------------------

  /** In every reachable state the overlay is rendered exactly when
      `showModal` is set. */
  lemma ReachableOverlay(path: string, events: seq<Event>)
    ensures Inv(Run(Init(path), events))
    ensures OverlayShown(Run(Init(path), events)) <==> Run(Init(path), events).showModal
  {
  }

  /** The last segment of `prefix/seg` is `seg` when `seg` holds no `/`. */
  lemma {:induction false} LastSegmentOfJoin(prefix: string, seg: string)
    requires '/' !in seg
    ensures LastSegment(prefix + "/" + seg) == seg
  {
    var path := prefix + "/" + seg;
    if seg != [] {
      assert path[..|path| - 1] == prefix + "/" + seg[..|seg| - 1];
      assert path[|path| - 1] == seg[|seg| - 1];
      LastSegmentOfJoin(prefix, seg[..|seg| - 1]);
      assert seg == seg[..|seg| - 1] + [seg[|seg| - 1]];
    } else {
      assert path[|path| - 1] == '/';
    }
  }

  /** A slug the browser keeps unchanged in `location.pathname`: ASCII
      letters, digits, `-` and `_` only, so no `/`, no escaping, no `?` or `#`
      and no dot segment. */
  predicate PathSafe(slug: string) {
    forall i :: 0 <= i < |slug| ==> PathSafeChar(slug[i])
  }

  predicate PathSafeChar(c: char) {
    || 'a' <= c <= 'z' || 'A' <= c <= 'Z' || '0' <= c <= '9' || c == '-' || c == '_'
  }

  /** A deep link pushed by a click resolves to the first photo carrying the
      clicked photo's slug, which is the clicked photo itself when slugs are
      unique; the history is left alone. */
  lemma ClickThenResolve(g: GalleryState, p: Photo, photos: seq<Photo>)
    requires Inv(g)
    requires PathSafe(p.slug)
    requires p in photos
    ensures LastSegment(Current(Click(g, p).history)) == p.slug
    ensures Resolve(Click(g, p), photos).history == Click(g, p).history
    ensures OverlayShown(Resolve(Click(g, p), photos))
    ensures Resolve(Click(g, p), photos).selected.value.slug == p.slug
  {
    LastSegmentOfJoin(GalleryPath, p.slug);
    assert "/photos/" + p.slug == GalleryPath + "/" + p.slug;
    var i :| 0 <= i < |photos| && photos[i] == p;
  }

  /** Clicking then closing leaves the address bar at `/photos`, on the entry
      the click pushed; resolving that location opens nothing unless some
      photo's slug is literally `photos`. */
  lemma ClickCloseResolve(g: GalleryState, p: Photo, photos: seq<Photo>)
    requires Inv(g)
    requires NoSlug(photos, "photos")
    ensures Current(Close(Click(g, p)).history) == "/photos"
    ensures Close(Click(g, p)).history.index == g.history.index + 1
    ensures !OverlayShown(Close(Click(g, p)))
    ensures Resolve(Close(Click(g, p)), photos) == Close(Click(g, p))
  {
  }

  /** Back after a click hides the overlay and returns to the previous
      address, but the selection stays; resolving again reopens it only if the
      previous address names a photo. */
  lemma BackAfterClick(g: GalleryState, p: Photo)
    requires Inv(g)
    ensures Current(GoBack(Click(g, p)).history) == Current(g.history)
    ensures !GoBack(Click(g, p)).showModal
    ensures GoBack(Click(g, p)).selected == Some(p)
  {
  }

  /** The component's URL effect at `/photos/dawn` over the feed
      `sunset, dawn` selects and shows the second photo. */
  lemma ResolveKnownSlug(a: Photo, b: Photo)
    requires a.slug == "sunset" && b.slug == "dawn"
    ensures Resolve(Init("/photos/dawn"), [a, b]).selected == Some(b)
    ensures OverlayShown(Resolve(Init("/photos/dawn"), [a, b]))
  {
    var path := "/photos/dawn";
    assert path == "/photos" + "/" + "dawn";
    LastSegmentOfJoin("/photos", "dawn");
    assert [a, b][1..] == [b];
    assert FindSlug([a, b], "dawn") == Some(1);
  }

  /** The component's URL effect at `/photos/unknown-slug` over the feed
      `sunset, dawn` finds no photo and is no error: the state is as it was. */
  lemma ResolveUnknownSlug(a: Photo, b: Photo)
    requires a.slug == "sunset" && b.slug == "dawn"
    ensures Resolve(Init("/photos/unknown-slug"), [a, b]) == Init("/photos/unknown-slug")
  {
  }
}
