/**
 * Recording the now-playing track in the session store: the cover URL, the
 * palette extracted from it, the track itself and its Spotify id.
 */
module PlayerTracking {
  import opened Wrappers
  import opened SessionStore

  const TrackPrefix: string := "spotify:track:"

  /** `[a-zA-Z0-9]` */
  predicate IsAlnum(c: char) {
    'a' <= c <= 'z' || 'A' <= c <= 'Z' || '0' <= c <= '9'
  }

  ghost predicate AllAlnum(s: string) {
    forall i :: 0 <= i < |s| ==> IsAlnum(s[i])
  }

  /** Whether every character of `s` is alphanumeric, by a scan from the front. */
  function AlnumRun(s: string): (r: bool)
    ensures r <==> AllAlnum(s)
    decreases |s|
  {
    if |s| == 0 then true
    else IsAlnum(s[0]) && AlnumRun(s[1..])
  }

  /**
   * `getSpotifyId(uri)`: the match of `^spotify:track:([a-zA-Z0-9]+)$`,
   * `undefined` when the whole URI does not match.
   */
  function GetSpotifyId(uri: string): (r: Option<string>)
    ensures r.Some? <==>
      |uri| > |TrackPrefix| && uri[..|TrackPrefix|] == TrackPrefix && AllAlnum(uri[|TrackPrefix|..])
    ensures r.Some? ==> uri == TrackPrefix + r.value
  {
    var n := |TrackPrefix|;
    if |uri| > n && uri[..n] == TrackPrefix && AlnumRun(uri[n..]) then Some(uri[n..]) else None
  }

  /** An id built from the prefix is recovered exactly when it is a non-empty alphanumeric run. */
  lemma SpotifyIdRoundTrip(id: string)
    ensures GetSpotifyId(TrackPrefix + id) == (if |id| > 0 && AllAlnum(id) then Some(id) else None)
  {
    var uri := TrackPrefix + id;
    assert uri[..|TrackPrefix|] == TrackPrefix;
    assert uri[|TrackPrefix|..] == id;
  }

  /** The empty id and an id holding a character outside `[a-zA-Z0-9]` are both rejected. */
  lemma SpotifyIdRejects(id: string, i: nat)
    requires |id| == 0 || (i < |id| && !IsAlnum(id[i]))
    ensures GetSpotifyId(TrackPrefix + id).None?
  {
    SpotifyIdRoundTrip(id);
  }

  /** `item?.images?.at(-1)?.url ?? null` */
  function ImageUrl(item: Option<Track>): (r: Option<string>)
    ensures r.Some? ==>
      (item.Some? && item.value.images.Some? && |item.value.images.value| > 0
       && item.value.images.value[|item.value.images.value| - 1].url == r)
    ensures (item.Some? && item.value.images.Some? && |item.value.images.value| == 0) ==> r.None?
  {
    if item.None? || item.value.images.None? || |item.value.images.value| == 0 then None
    else item.value.images.value[|item.value.images.value| - 1].url
  }

  /** The URL is truthy: present and not empty. */
  predicate Truthy(url: Option<string>) {
    url.Some? && url.value != ""
  }

  /** The value written to the `--np-img-url` custom property. */
  function CoverCssValue(url: Option<string>): (r: string)
    ensures !Truthy(url) <==> r == ""
    ensures Truthy(url) ==> r == "url(\"" + url.value + "\")"
  {
    if Truthy(url) then "url(\"" + url.value + "\")" else ""
  }

  /** The id property of the final patch: the parsed id when the track has a truthy URI. */
  function IdOf(item: Option<Track>): Option<string> {
    if item.Some? && Truthy(item.value.uri) then GetSpotifyId(item.value.uri.value) else None
  }

  /**
   * The setter calls `setTempPlayerData` makes, in order: none without a
   * cover URL; otherwise the palette (when extraction did not throw), then
   * URL, track and id in one patch.
   */
  function PlayerWrites(item: Option<Track>, colors: Outcome<Palette>): seq<Update> {
    var url := ImageUrl(item);
    if !Truthy(url) then []
    else
      var info := SetPlayer(NowPlaying, PlayerPatch(Some(url), Some(item), Some(IdOf(item)), None, None));
      if colors.Returned? then [SetPlayer(NowPlaying, PlayerPatch(None, None, None, Some(Some(colors.value)), None)), info]
      else [info]
  }

  /** Without a truthy cover URL the store is not touched at all, so the previous track's id and data remain. */
  lemma NoUrlNoWrite(s: TempState, item: Option<Track>, colors: Outcome<Palette>)
    requires !Truthy(ImageUrl(item))
    ensures ApplyAll(s, PlayerWrites(item, colors)) == s
  {
  }

  /**
   * With a cover URL the now-playing record holds that URL, the track and its
   * id; the palette is the extracted one, or the previous one when extraction
   * threw; the lyric data and every other store field are unchanged.
   */
  lemma UrlWritesTrack(s: TempState, item: Option<Track>, colors: Outcome<Palette>, f: Field)
    requires Truthy(ImageUrl(item))
    requires f != Player
    ensures var t := ApplyAll(s, PlayerWrites(item, colors));
      t.nowPlaying.imageUrl == ImageUrl(item)
      && t.nowPlaying.data == item
      && t.nowPlaying.id == IdOf(item)
      && t.nowPlaying.colors == (if colors.Returned? then Some(colors.value) else s.nowPlaying.colors)
      && t.nowPlaying.lyricData == s.nowPlaying.lyricData
      && SameAt(s, t, f)
  {
    var us := PlayerWrites(item, colors);
    forall i | 0 <= i < |us| ensures FieldOf(us[i]) != f {
    }
    ApplyAllKeeps(s, us, f);
    if colors.Returned? {
      var s1 := Apply(s, us[0]);
      assert ApplyAll(s, us) == ApplyAll(s1, us[1..]);
      assert us[1..] == [us[1]];
      assert ApplyAll(s1, us[1..]) == ApplyAll(Apply(s1, us[1]), []);
    } else {
      assert ApplyAll(s, us) == ApplyAll(Apply(s, us[0]), []);
    }
  }

  /**
   * `setTempPlayerData('nowPlaying', item)`: the palette extraction, which is
   * awaited, is a parameter; the result is the value given to the CSS custom
   * property.
   */
  method SetTempPlayerData(store: Store, item: Option<Track>, colors: Outcome<Palette>) returns (cssValue: string)
    modifies store
    ensures cssValue == CoverCssValue(ImageUrl(item))
    ensures store.state == ApplyAll(old(store.state), PlayerWrites(item, colors))
  {
    var url := ImageUrl(item);
    cssValue := CoverCssValue(url);
    if !Truthy(url) {
      return;
    }
    ghost var s0 := store.state;
    if colors.Returned? {
      store.Set(SetPlayer(NowPlaying, PlayerPatch(None, None, None, Some(Some(colors.value)), None)));
    }
    var id := IdOf(item);
    store.Set(SetPlayer(NowPlaying, PlayerPatch(Some(url), Some(item), Some(id), None, None)));
    ghost var us := PlayerWrites(item, colors);
    if colors.Returned? {
      ghost var s1 := Apply(s0, us[0]);
      assert ApplyAll(s0, us) == ApplyAll(s1, us[1..]);
      assert us[1..] == [us[1]];
      assert ApplyAll(s1, us[1..]) == ApplyAll(Apply(s1, us[1]), []);
    } else {
      assert ApplyAll(s0, us) == ApplyAll(Apply(s0, us[0]), []);
    }
  }
}
