/**
 * The Python side of the component: `funplayer` normalises its arguments into the
 * `component_args` dictionary handed to Streamlit, and `create_funscript` builds a
 * default funscript dictionary.
 */
module FunplayerApi {
  import opened Wrappers
  import opened Dicts

  /** The Python values that reach these functions. */
  datatype PyValue =
    | PNone
    | PBool(b: bool)
    | PInt(i: int)
    | PStr(s: string)
    | PList(items: seq<PyValue>)
    | PDict(entries: Entries<PyValue>)
      /** Any other object (a tuple, a float, ...), with its truth value. */
    | POther(truthy: bool)

  /** Python truth testing. */
  predicate PyTruthy(v: PyValue)
  {
    match v
    case PNone => false
    case PBool(b) => b
    case PInt(i) => i != 0
    case PStr(s) => s != ""
    case PList(items) => items != []
    case PDict(entries) => entries != []
    case POther(t) => t
  }

  const PlaylistTypeError := "playlist must be a dict or list of dicts"

  /** `d.update(other)`, one assignment per entry of `other`. */
  method Update<V>(d: Entries<V>, other: Entries<V>) returns (r: Entries<V>)
    ensures r == PutAll(d, other)
  {
    r := d;
    for i := 0 to |other|
      invariant r == PutAll(d, other[..i])
    {
      PutAllPrefix(d, other, i);
      r := Put(r, other[i].0, other[i].1);
    }
    assert other[..|other|] == other;
  }

  /** The single playlist item of the legacy API: the truthy media, funscript and poster, then the kwargs over them. */
  ghost predicate IsLegacyItem(item: Entries<PyValue>, media: PyValue, funscript: PyValue, poster: PyValue, kwargs: Entries<PyValue>)
  {
    forall k :: Get(item, k) == LegacyValue(k, media, funscript, poster, kwargs)
  }

  /** The value the legacy item holds under `k`. */
  function LegacyValue(k: string, media: PyValue, funscript: PyValue, poster: PyValue, kwargs: Entries<PyValue>): Option<PyValue>
  {
    if HasKey(kwargs, k) then Get(kwargs, k)
    else if k == "media" && PyTruthy(media) then Some(media)
    else if k == "funscript" && PyTruthy(funscript) then Some(funscript)
    else if k == "poster" && PyTruthy(poster) then Some(poster)
    else None
  }

  /** An entry for `key` when `value` is truthy, nothing otherwise. */
  function EntryIfTruthy(key: string, value: PyValue): (r: Entries<PyValue>)
    ensures PyTruthy(value) ==> r == [(key, value)]
    ensures !PyTruthy(value) ==> r == []
  {
    if PyTruthy(value) then [(key, value)] else []
  }

  /** The legacy item before the kwargs: `media`, `funscript`, `poster` in that order, the falsy ones skipped. */
  function LegacyBase(media: PyValue, funscript: PyValue, poster: PyValue): Entries<PyValue>
  {
    EntryIfTruthy("media", media) + EntryIfTruthy("funscript", funscript) + EntryIfTruthy("poster", poster)
  }

  lemma LegacyBaseGet(k: string, media: PyValue, funscript: PyValue, poster: PyValue)
    ensures Get(LegacyBase(media, funscript, poster), k) == LegacyValue(k, media, funscript, poster, [])
    ensures DistinctKeys(LegacyBase(media, funscript, poster))
  {
    var a, b, c := EntryIfTruthy("media", media), EntryIfTruthy("funscript", funscript), EntryIfTruthy("poster", poster);
    GetAppend(a + b, c, k);
    GetAppend(a, b, k);
    var empty: Entries<PyValue> := [];
    assert !HasKey(empty, k);
  }

  /** Storing under a key the dictionary lacks appends one entry. */
  lemma PutFresh(d: Entries<PyValue>, k: string, v: PyValue)
    requires forall i :: 0 <= i < |d| ==> |d[i].0| != |k|
    ensures Put(d, k, v) == d + [(k, v)]
  {
  }

  /** The first assignments of the legacy branch, one per truthy argument. */
  method LegacyBaseItem(media: PyValue, funscript: PyValue, poster: PyValue) returns (legacyItem: Entries<PyValue>)
    ensures legacyItem == LegacyBase(media, funscript, poster)
  {
    legacyItem := [];
    if PyTruthy(media) {
      legacyItem := AssignFresh(legacyItem, "media", media);
    }
    if PyTruthy(funscript) {
      legacyItem := AssignFresh(legacyItem, "funscript", funscript);
    }
    if PyTruthy(poster) {
      legacyItem := AssignFresh(legacyItem, "poster", poster);
    }
  }

  /** `d[k] = v` for a key longer or shorter than every key present, so certainly new. */
  method AssignFresh(d: Entries<PyValue>, k: string, v: PyValue) returns (r: Entries<PyValue>)
    requires forall i :: 0 <= i < |d| ==> |d[i].0| != |k|
    ensures r == d + [(k, v)]
  {
    PutFresh(d, k, v);
    r := Put(d, k, v);
  }

  /** The kwargs go over the truthy media, funscript and poster. */
  lemma LegacyItemGet(media: PyValue, funscript: PyValue, poster: PyValue, kwargs: Entries<PyValue>)
    requires DistinctKeys(kwargs)
    ensures IsLegacyItem(PutAll(LegacyBase(media, funscript, poster), kwargs), media, funscript, poster, kwargs)
    ensures DistinctKeys(PutAll(LegacyBase(media, funscript, poster), kwargs))
  {
    var base := LegacyBase(media, funscript, poster);
    forall k ensures Get(PutAll(base, kwargs), k) == LegacyValue(k, media, funscript, poster, kwargs) {
      PutAllGet(base, kwargs, k);
      LegacyBaseGet(k, media, funscript, poster);
    }
    LegacyBaseGet("", media, funscript, poster);
    PutAllDistinct(base, kwargs);
  }

  /** The legacy branch of `funplayer`. */
  method LegacyItem(media: PyValue, funscript: PyValue, poster: PyValue, kwargs: Entries<PyValue>)
    returns (legacyItem: Entries<PyValue>)
    requires DistinctKeys(kwargs)
    ensures IsLegacyItem(legacyItem, media, funscript, poster, kwargs)
    ensures DistinctKeys(legacyItem)
  {
    legacyItem := LegacyBaseItem(media, funscript, poster);
    legacyItem := Update(legacyItem, kwargs);
    LegacyItemGet(media, funscript, poster, kwargs);
  }

  /** A one-item playlist whose item is the legacy item. */
  ghost predicate IsLegacyPlaylist(p: PyValue, media: PyValue, funscript: PyValue, poster: PyValue, kwargs: Entries<PyValue>)
  {
    p.PList? && |p.items| == 1 && p.items[0].PDict?
    && IsLegacyItem(p.items[0].entries, media, funscript, poster, kwargs)
  }

  /** The legacy branch runs: no playlist, and some of media, funscript and poster given. */
  predicate UsesLegacy(playlist: PyValue, media: PyValue, funscript: PyValue, poster: PyValue)
  {
    playlist.PNone? && (!media.PNone? || !funscript.PNone? || !poster.PNone?)
  }

  /** The `component_args` dictionary: the playlist entry, if any, then the theme entry, if any. */
  function ComponentArgs(playlistArg: Option<PyValue>, theme: PyValue): Entries<PyValue>
  {
    (match playlistArg case Some(p) => [("playlist", p)] case None => [])
    + (if theme.PNone? then [] else [("theme", theme)])
  }

  lemma ComponentArgsGet(playlistArg: Option<PyValue>, theme: PyValue)
    ensures forall k :: HasKey(ComponentArgs(playlistArg, theme), k) ==> k == "playlist" || k == "theme"
    ensures Get(ComponentArgs(playlistArg, theme), "playlist") == playlistArg
    ensures HasKey(ComponentArgs(playlistArg, theme), "theme") <==> !theme.PNone?
    ensures !theme.PNone? ==> Get(ComponentArgs(playlistArg, theme), "theme") == Some(theme)
  {
    var a := match playlistArg case Some(p) => [("playlist", p)] case None => [];
    var b := if theme.PNone? then [] else [("theme", theme)];
    GetAppend(a, b, "playlist");
    GetAppend(a, b, "theme");
    assert forall k :: HasKey(a + b, k) ==> HasKey(a, k) || HasKey(b, k) by {
      assert forall i :: |a| <= i < |a + b| ==> (a + b)[i] == b[i - |a|];
    }
  }

  /** The playlist part of `funplayer`: the value stored under `playlist`, if any, or the ValueError. */
  method PlaylistArg(playlist: PyValue, media: PyValue, funscript: PyValue, poster: PyValue, kwargs: Entries<PyValue>)
    returns (r: Result<Option<PyValue>, string>)
    requires DistinctKeys(kwargs)
    ensures r.Failure? <==> !playlist.PNone? && !playlist.PDict? && !playlist.PList?
    ensures r.Failure? ==> r.error == PlaylistTypeError
    ensures r.Success? && playlist.PDict? ==> r.value == Some(PList([playlist]))
    ensures r.Success? && playlist.PList? ==> r.value == Some(playlist)
    ensures r.Success? && UsesLegacy(playlist, media, funscript, poster) ==>
      r.value.Some? && IsLegacyPlaylist(r.value.value, media, funscript, poster, kwargs)
    ensures r.Success? && playlist.PNone? && media.PNone? && funscript.PNone? && poster.PNone? ==> r.value.None?
  {
    if !playlist.PNone? {
      if playlist.PDict? {
        return Success(Some(PList([playlist])));
      } else if !playlist.PList? {
        return Failure(PlaylistTypeError);
      }
      return Success(Some(playlist));
    } else if !media.PNone? || !funscript.PNone? || !poster.PNone? {
      var legacyItem := LegacyItem(media, funscript, poster, kwargs);
      return Success(Some(PList([PDict(legacyItem)])));
    }
    return Success(None);
  }

  /** `funplayer(...)`: the `component_args` dictionary, or the ValueError for a bad playlist. */
  method Funplayer(playlist: PyValue, media: PyValue, funscript: PyValue, poster: PyValue,
                   theme: PyValue, kwargs: Entries<PyValue>)
    returns (r: Result<Entries<PyValue>, string>)
    requires DistinctKeys(kwargs)
    ensures r.Failure? <==> !playlist.PNone? && !playlist.PDict? && !playlist.PList?
    ensures r.Failure? ==> r.error == PlaylistTypeError
    ensures r.Success? ==> forall k :: HasKey(r.value, k) ==> k == "playlist" || k == "theme"
    ensures r.Success? && playlist.PDict? ==> Get(r.value, "playlist") == Some(PList([playlist]))
    ensures r.Success? && playlist.PList? ==> Get(r.value, "playlist") == Some(playlist)
    ensures r.Success? && UsesLegacy(playlist, media, funscript, poster) ==>
      Get(r.value, "playlist").Some? && IsLegacyPlaylist(Get(r.value, "playlist").value, media, funscript, poster, kwargs)
    ensures r.Success? && playlist.PNone? && media.PNone? && funscript.PNone? && poster.PNone? ==>
      !HasKey(r.value, "playlist")
    ensures r.Success? ==> (HasKey(r.value, "theme") <==> !theme.PNone?)
    ensures r.Success? && !theme.PNone? ==> Get(r.value, "theme") == Some(theme)
  {
    var playlistArg := PlaylistArg(playlist, media, funscript, poster, kwargs);
    if playlistArg.Failure? {
      return Failure(playlistArg.error);
    }
    var componentArgs: Entries<PyValue> := [];
    if playlistArg.value.Some? {
      componentArgs := Put(componentArgs, "playlist", playlistArg.value.value);
    }
    assert componentArgs == ComponentArgs(playlistArg.value, PNone);
    if !theme.PNone? {
      PutFresh(componentArgs, "theme", theme);
      componentArgs := Put(componentArgs, "theme", theme);
    }
    assert componentArgs == ComponentArgs(playlistArg.value, theme);
    ComponentArgsGet(playlistArg.value, theme);
    return Success(componentArgs);
  }

  /** The four entries every funscript starts with. */
  function FunscriptDefaults(actions: PyValue): Entries<PyValue>
  {
    [("version", PStr("1.0")), ("inverted", PBool(false)), ("range", PInt(90)), ("actions", actions)]
  }

  /** The value under `k` once the metadata is merged over the defaults. */
  function MetadataOver(metadata: Option<Entries<PyValue>>, actions: PyValue, k: string): Option<PyValue>
  {
    if metadata.Some? && HasKey(metadata.value, k) then Get(metadata.value, k)
    else Get(FunscriptDefaults(actions), k)
  }

  /** `create_funscript(actions, metadata)`; `None` stands for Python's `None`. */
  method CreateFunscript(actions: PyValue, metadata: Option<Entries<PyValue>>) returns (funscript: Entries<PyValue>)
    requires metadata.Some? ==> DistinctKeys(metadata.value)
    ensures DistinctKeys(funscript)
    ensures |funscript| >= 4 && Keys(funscript)[..4] == ["version", "inverted", "range", "actions"]
    ensures metadata.None? || metadata.value == [] ==> funscript == FunscriptDefaults(actions)
    ensures forall k :: Get(funscript, k) == MetadataOver(metadata, actions, k)
  {
    funscript := FunscriptDefaults(actions);
    assert DistinctKeys(funscript);
    if metadata.Some? && metadata.value != [] {
      var defaults := funscript;
      funscript := Update(funscript, metadata.value);
      forall k ensures Get(funscript, k) == if HasKey(metadata.value, k) then Get(metadata.value, k) else Get(defaults, k) {
        PutAllGet(defaults, metadata.value, k);
      }
      PutAllDistinct(defaults, metadata.value);
    }
  }

  /** `create_funscript` without metadata yields a well-formed funscript header. */
  lemma DefaultFunscriptFields(actions: PyValue)
    ensures Get(FunscriptDefaults(actions), "version") == Some(PStr("1.0"))
    ensures Get(FunscriptDefaults(actions), "inverted") == Some(PBool(false))
    ensures Get(FunscriptDefaults(actions), "range") == Some(PInt(90))
    ensures Get(FunscriptDefaults(actions), "actions") == Some(actions)
  {
    var d := FunscriptDefaults(actions);
    GetAt(d, 0, "version");
    GetAt(d, 1, "inverted");
    GetAt(d, 2, "range");
    GetAt(d, 3, "actions");
  }
}
