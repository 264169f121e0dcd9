/**
 * The in-memory session store: player data, page images, the cached Spotify
 * token, view sizes and UI flags. Every setter shallow-merges into one field.
 */
module SessionStore {
  import opened Wrappers
  import opened LyricTypes

  datatype Image = Image(url: Option<string>)

  /** The host player's track, reduced to the properties read here. */
  datatype Track = Track(uri: Option<string>, images: Option<seq<Image>>)

  /** A colour palette, as extracted from the cover image. */
  type Palette = seq<string>

  /** `PlayerData`; `None` is `null`. */
  datatype PlayerData = PlayerData(
    imageUrl: Option<string>,
    data: Option<Track>,
    id: Option<string>,
    colors: Option<Palette>,
    lyricData: Option<LyricData>)

  /** `Partial<PlayerData>`: `None` leaves the property out of the patch. */
  datatype PlayerPatch = PlayerPatch(
    imageUrl: Option<Option<string>>,
    data: Option<Option<Track>>,
    id: Option<Option<string>>,
    colors: Option<Option<Palette>>,
    lyricData: Option<Option<LyricData>>)

  datatype PageImg = PageImg(cover: Option<string>, desktop: Option<string>)
  datatype PageImgPatch = PageImgPatch(cover: Option<Option<string>>, desktop: Option<Option<string>>)

  /** `SpotifyToken`: both properties optional. */
  datatype SpotifyToken = SpotifyToken(accessToken: Option<string>, expiresAtTime: Option<real>)
  datatype TokenPatch = TokenPatch(accessToken: Option<Option<string>>, expiresAtTime: Option<Option<real>>)

  datatype Size = Size(width: real, height: real)
  datatype ViewSize = ViewSize(main: Size)
  datatype ViewSizePatch = ViewSizePatch(main: Option<Size>)

  /** The only player slot the store declares. */
  datatype PlayerSlot = NowPlaying

  /**
   * The store's state. Page, button and renderer instances are objects the
   * store only holds; they are represented by identifiers.
   */
  datatype TempState = TempState(
    isLyricsOnPage: bool,
    isSidebarOpen: bool,
    fullscreenMode: string,
    nowPlaying: PlayerData,
    pageImg: PageImg,
    spotifyToken: SpotifyToken,
    viewSize: ViewSize,
    isOnline: bool,
    isScrolling: bool,
    mainPageInstance: Option<nat>,
    playerButtonInstance: Option<nat>,
    fullscreenRendererInstance: Option<nat>)

  /** `{ ...x, [k]: v }` for one property: the patch's value when it names the property. */
  function Override<T>(x: T, p: Option<T>): (r: T)
    ensures p.None? ==> r == x
    ensures p.Some? ==> r == p.value
  {
    if p.Some? then p.value else x
  }

  function PatchPlayer(d: PlayerData, p: PlayerPatch): PlayerData {
    PlayerData(Override(d.imageUrl, p.imageUrl), Override(d.data, p.data), Override(d.id, p.id),
               Override(d.colors, p.colors), Override(d.lyricData, p.lyricData))
  }

  function PatchPageImg(i: PageImg, p: PageImgPatch): PageImg {
    PageImg(Override(i.cover, p.cover), Override(i.desktop, p.desktop))
  }

  function PatchToken(t: SpotifyToken, p: TokenPatch): SpotifyToken {
    SpotifyToken(Override(t.accessToken, p.accessToken), Override(t.expiresAtTime, p.expiresAtTime))
  }

  function PatchViewSize(v: ViewSize, p: ViewSizePatch): ViewSize {
    ViewSize(Override(v.main, p.main))
  }

  const DefaultPlayer: PlayerData := PlayerData(None, None, None, None, None)

  /** `DEFAULT_TEMP_STATE`, with `navigator.onLine` as a parameter. */
  function DefaultTempState(isOnline: bool): TempState {
    TempState(false, false, "hidden", DefaultPlayer, PageImg(None, None), SpotifyToken(None, None),
              ViewSize(Size(0.0, 0.0)), isOnline, false, None, None, None)
  }

  /** One call of a setter. */
  datatype Update =
    | SetIsLyricsOnPage(isLyricsOnPage: bool)
    | SetIsSidebarOpen(isSidebarOpen: bool)
    | SetPlayer(slot: PlayerSlot, player: PlayerPatch)
    | SetPageImg(pageImg: PageImgPatch)
    | SetIsOnline(isOnline: bool)
    | SetIsScrolling(isScrolling: bool)
    | SetFullscreenMode(fullscreenMode: string)
    | SetSpotifyToken(spotifyToken: TokenPatch)
    | SetViewSize(viewSize: ViewSizePatch)
    | SetMainPageInstance(mainPageInstance: nat)
    | SetPlayerButtonInstance(playerButtonInstance: Option<nat>)
    | SetFullscreenRendererInstance(fullscreenRendererInstance: nat)

  /** The state's fields, one per setter. */
  datatype Field =
    | IsLyricsOnPage | IsSidebarOpen | Player | PageImgField | IsOnline | IsScrolling
    | FullscreenMode | SpotifyTokenField | ViewSizeField | MainPageInstance
    | PlayerButtonInstance | FullscreenRendererInstance

  function FieldOf(u: Update): Field {
    match u
    case SetIsLyricsOnPage(_) => IsLyricsOnPage
    case SetIsSidebarOpen(_) => IsSidebarOpen
    case SetPlayer(_, _) => Player
    case SetPageImg(_) => PageImgField
    case SetIsOnline(_) => IsOnline
    case SetIsScrolling(_) => IsScrolling
    case SetFullscreenMode(_) => FullscreenMode
    case SetSpotifyToken(_) => SpotifyTokenField
    case SetViewSize(_) => ViewSizeField
    case SetMainPageInstance(_) => MainPageInstance
    case SetPlayerButtonInstance(_) => PlayerButtonInstance
    case SetFullscreenRendererInstance(_) => FullscreenRendererInstance
  }

  /** `s` and `t` hold the same value in field `f`. */
  predicate SameAt(s: TempState, t: TempState, f: Field) {
    match f
    case IsLyricsOnPage => s.isLyricsOnPage == t.isLyricsOnPage
    case IsSidebarOpen => s.isSidebarOpen == t.isSidebarOpen
    case Player => s.nowPlaying == t.nowPlaying
    case PageImgField => s.pageImg == t.pageImg
    case IsOnline => s.isOnline == t.isOnline
    case IsScrolling => s.isScrolling == t.isScrolling
    case FullscreenMode => s.fullscreenMode == t.fullscreenMode
    case SpotifyTokenField => s.spotifyToken == t.spotifyToken
    case ViewSizeField => s.viewSize == t.viewSize
    case MainPageInstance => s.mainPageInstance == t.mainPageInstance
    case PlayerButtonInstance => s.playerButtonInstance == t.playerButtonInstance
    case FullscreenRendererInstance => s.fullscreenRendererInstance == t.fullscreenRendererInstance
  }

  /**
   * The state after one setter: the merging setters spread their patch into
   * their own sub-record, the others replace their field.
   */
  function Apply(s: TempState, u: Update): TempState {
    match u
    case SetIsLyricsOnPage(b) => s.(isLyricsOnPage := b)
    case SetIsSidebarOpen(b) => s.(isSidebarOpen := b)
    case SetPlayer(NowPlaying, p) => s.(nowPlaying := PatchPlayer(s.nowPlaying, p))
    case SetPageImg(p) => s.(pageImg := PatchPageImg(s.pageImg, p))
    case SetIsOnline(b) => s.(isOnline := b)
    case SetIsScrolling(b) => s.(isScrolling := b)
    case SetFullscreenMode(m) => s.(fullscreenMode := m)
    case SetSpotifyToken(p) => s.(spotifyToken := PatchToken(s.spotifyToken, p))
    case SetViewSize(p) => s.(viewSize := PatchViewSize(s.viewSize, p))
    case SetMainPageInstance(i) => s.(mainPageInstance := Some(i))
    case SetPlayerButtonInstance(i) => s.(playerButtonInstance := i)
    case SetFullscreenRendererInstance(i) => s.(fullscreenRendererInstance := Some(i))
  }

  /** A setter touches only its own field. */
  lemma ApplyFrame(s: TempState, u: Update, g: Field)
    requires g != FieldOf(u)
    ensures SameAt(s, Apply(s, u), g)
  {
    match u
    case SetPlayer(NowPlaying, p) =>
    case _ =>
  }

  /** Applying a setter twice with the same argument is applying it once. */
  lemma ApplyIdempotent(s: TempState, u: Update)
    ensures Apply(Apply(s, u), u) == Apply(s, u)
  {
    match u
    case SetPlayer(NowPlaying, p) =>
    case _ =>
  }

  /** The state a sequence of setters leaves, in call order. */
  function ApplyAll(s: TempState, us: seq<Update>): TempState
    decreases |us|
  {
    if |us| == 0 then s else ApplyAll(Apply(s, us[0]), us[1..])
  }

  /** A field no setter in the sequence names keeps its value. */
  lemma {:induction false} ApplyAllKeeps(s: TempState, us: seq<Update>, f: Field)
    requires forall i :: 0 <= i < |us| ==> FieldOf(us[i]) != f
    ensures SameAt(s, ApplyAll(s, us), f)
    decreases |us|
  {
    if |us| > 0 {
      ApplyFrame(s, us[0], f);
      ApplyAllKeeps(Apply(s, us[0]), us[1..], f);
      SameAtTrans(s, Apply(s, us[0]), ApplyAll(Apply(s, us[0]), us[1..]), f);
    }
  }

  lemma SameAtTrans(s: TempState, t: TempState, w: TempState, f: Field)
    requires SameAt(s, t, f) && SameAt(t, w, f)
    ensures SameAt(s, w, f)
  {
  }

  /** `setPlayer(slot, p)` merges `p` into the slot: named properties are replaced, the others kept. */
  lemma SetPlayerMerges(s: TempState, p: PlayerPatch)
    ensures var d := Apply(s, SetPlayer(NowPlaying, p)).nowPlaying;
      (p.imageUrl.Some? ==> d.imageUrl == p.imageUrl.value) && (p.imageUrl.None? ==> d.imageUrl == s.nowPlaying.imageUrl)
      && (p.id.Some? ==> d.id == p.id.value) && (p.id.None? ==> d.id == s.nowPlaying.id)
      && (p.data.Some? ==> d.data == p.data.value) && (p.data.None? ==> d.data == s.nowPlaying.data)
      && (p.colors.Some? ==> d.colors == p.colors.value) && (p.colors.None? ==> d.colors == s.nowPlaying.colors)
      && (p.lyricData.Some? ==> d.lyricData == p.lyricData.value)
      && (p.lyricData.None? ==> d.lyricData == s.nowPlaying.lyricData)
  {
  }

  /** The store: its state, changed only by the setters. */
  class Store {
    var state: TempState

    constructor(isOnline: bool)
      ensures state == DefaultTempState(isOnline)
      ensures state.fullscreenMode == "hidden" && !state.isScrolling
      ensures state.pageImg == PageImg(None, None) && state.spotifyToken == SpotifyToken(None, None)
    {
      state := DefaultTempState(isOnline);
    }

    /** Any of the store's setters. */
    method Set(u: Update)
      modifies this
      ensures state == Apply(old(state), u)
    {
      state := Apply(state, u);
    }
  }
}
