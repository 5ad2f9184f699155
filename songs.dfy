/**
 * The `Song` record of ViewController.swift, the lenient per-item decode and
 * the "Dempsey" selection of the `jsonsongs.map { ... }` closure, and the
 * synthesized `Encodable` conformance used to persist the result.
 */
module Songs {
  import opened Wrappers
  import opened JsonValues

  const ArtistIdKey := "artistId"
  const CollectionIdKey := "collectionId"
  const TrackIdKey := "trackId"
  const ArtistNameKey := "artistName"
  const CollectionNameKey := "collectionName"
  const TrackNameKey := "trackName"
  const CollectionCensoredNameKey := "collectionCensoredName"
  const TrackCensoredNameKey := "trackCensoredName"
  const IsStreamableKey := "isStreamable"

  /** The fixed, case-sensitive substring that selects an item. */
  const Dempsey := "Dempsey"

  datatype Song = Song(
    artistId: string,
    collectionId: string,
    trackId: string,
    artistName: string,
    collectionName: string,
    trackName: string,
    collectionCensoredName: Option<string>,
    trackCensoredName: Option<string>,
    isStreamable: bool)

  /** The placeholder that replaces a non-matching item. */
  const Blank := Song("", "", "", "", "", "", None, None, false)

  // ---------------------------------------------------------------------------
  // Substring test (`String.contains`), on plain characters.

  /** `sub` occurs in `s` starting at index `i`. */
  predicate OccursAt(s: string, sub: string, i: nat) {
    i + |sub| <= |s| && s[i..i + |sub|] == sub
  }

  function Contains(s: string, sub: string): (r: bool)
    ensures r ==> |sub| <= |s|
    decreases |s|
  {
    if sub <= s then true
    else if s == [] then false
    else Contains(s[1..], sub)
  }

  /** The scanning definition agrees with "some position holds `sub`". */
  lemma {:induction false} ContainsIff(s: string, sub: string)
    ensures Contains(s, sub) <==> exists i: nat :: OccursAt(s, sub, i)
    decreases |s|
  {
    if sub <= s {
      assert OccursAt(s, sub, 0);
    } else if s == [] {
      assert |sub| > 0;
    } else {
      ContainsIff(s[1..], sub);
      assert !OccursAt(s, sub, 0) by {
        if |sub| <= |s| {
          assert s[..|sub|] != sub;
          assert s[0..|sub|] == s[..|sub|];
        }
      }
      if exists i: nat :: OccursAt(s, sub, i) {
        var i: nat :| OccursAt(s, sub, i);
        assert s[1..][i - 1..i - 1 + |sub|] == s[i..i + |sub|];
        assert OccursAt(s[1..], sub, i - 1);
      }
      if exists j: nat :: OccursAt(s[1..], sub, j) {
        var j: nat :| OccursAt(s[1..], sub, j);
        assert s[1..][j..j + |sub|] == s[j + 1..j + 1 + |sub|];
        assert OccursAt(s, sub, j + 1);
      }
    }
  }

  // ---------------------------------------------------------------------------
  // Field casts with defaults.

  /** `dictionary[key] as? String` */
  function StringField(d: Dict, key: string): (r: Option<string>)
    ensures r.Some? <==> key in d && d[key].JStr?
    ensures r.Some? ==> d[key] == JStr(r.value)
  {
    if key in d && d[key].JStr? then Some(d[key].str) else None
  }

  /** `dictionary[key] as? String ?? ""` */
  function Text(d: Dict, key: string): (r: string)
    ensures IsTextOf(r, d, key)
  {
    StringField(d, key).GetOr("")
  }

  /** `(dictionary[key] as? Bool) ?? false` */
  function Flag(d: Dict, key: string): (r: bool)
    ensures r <==> key in d && d[key] == JBool(true)
  {
    if key in d && d[key].JBool? then d[key].b else false
  }

  // ---------------------------------------------------------------------------
  // Decode and select.

  /** The selection rule: the defaulted artist name contains "Dempsey". */
  predicate Matches(d: Dict) {
    Contains(Text(d, ArtistNameKey), Dempsey)
  }

  /** The body of the `jsonsongs.map` closure for one result dictionary. */
  function DecodeItem(d: Dict): Song {
    var artistName := Text(d, ArtistNameKey);
    var trackName := Text(d, TrackNameKey);
    if Matches(d) then
      Song(Text(d, ArtistIdKey),
           Text(d, CollectionIdKey),
           Text(d, TrackIdKey),
           artistName,
           Text(d, CollectionNameKey),
           trackName,
           StringField(d, CollectionCensoredNameKey),
           StringField(d, TrackCensoredNameKey),
           Flag(d, IsStreamableKey))
    else
      Blank
  }

  /** `jsonsongs.map { ... }`: one song per dictionary, in order. */
  function Transform(items: seq<Dict>): (r: seq<Song>)
    ensures |r| == |items|
    ensures forall i :: 0 <= i < |items| ==> r[i] == DecodeItem(items[i])
  {
    if items == [] then [] else [DecodeItem(items[0])] + Transform(items[1..])
  }

  // ---------------------------------------------------------------------------
  // What the decode promises, stated on the raw dictionary.

  /** The dictionary holds a string under `key`. */
  predicate HasString(d: Dict, key: string) {
    key in d && d[key].JStr?
  }

  /** `v` is what a lenient read of `key` gives: the string there, or "" otherwise. */
  ghost predicate IsTextOf(v: string, d: Dict, key: string) {
    (HasString(d, key) ==> v == d[key].str) && (!HasString(d, key) ==> v == "")
  }

  /** The raw form of the selection rule, without the defaulting helpers. */
  ghost predicate ArtistMatches(d: Dict) {
    HasString(d, ArtistNameKey) && exists i: nat :: OccursAt(d[ArtistNameKey].str, Dempsey, i)
  }

  lemma MatchesIff(d: Dict)
    ensures Matches(d) <==> ArtistMatches(d)
  {
    ContainsIff(Text(d, ArtistNameKey), Dempsey);
    if !HasString(d, ArtistNameKey) {
      assert Text(d, ArtistNameKey) == "";
      assert !Contains("", Dempsey);
    }
  }

  /** A selected item keeps its artist and track names, and every other string field is the string found or "". */
  lemma DecodeKeepsMatching(d: Dict)
    requires ArtistMatches(d)
    ensures DecodeItem(d).artistName == d[ArtistNameKey].str
    ensures IsTextOf(DecodeItem(d).trackName, d, TrackNameKey)
    ensures IsTextOf(DecodeItem(d).artistId, d, ArtistIdKey)
    ensures IsTextOf(DecodeItem(d).collectionId, d, CollectionIdKey)
    ensures IsTextOf(DecodeItem(d).trackId, d, TrackIdKey)
    ensures IsTextOf(DecodeItem(d).collectionName, d, CollectionNameKey)
  {
    MatchesIff(d);
  }

  /** A numeric identifier on a selected item is not converted: it becomes "". */
  lemma NumericIdBecomesEmpty(d: Dict)
    requires ArtistMatches(d)
    ensures ArtistIdKey in d && d[ArtistIdKey].JNum? ==> DecodeItem(d).artistId == ""
    ensures CollectionIdKey in d && d[CollectionIdKey].JNum? ==> DecodeItem(d).collectionId == ""
    ensures TrackIdKey in d && d[TrackIdKey].JNum? ==> DecodeItem(d).trackId == ""
  {
  }

  /** An item whose artist name is absent, not a string, or without "Dempsey" becomes the blank song. */
  lemma DecodeBlanksOthers(d: Dict)
    requires !ArtistMatches(d)
    ensures DecodeItem(d) == Blank
    ensures DecodeItem(d).artistName == "" && DecodeItem(d).trackName == ""
    ensures DecodeItem(d).collectionCensoredName.None? && DecodeItem(d).trackCensoredName.None?
    ensures !DecodeItem(d).isStreamable
  {
    MatchesIff(d);
  }

  /** On a selected item the censored names are absent exactly when the key is missing or not a string; they are never defaulted to "". */
  lemma CensoredNamesOptional(d: Dict)
    requires ArtistMatches(d)
    ensures DecodeItem(d).collectionCensoredName.None? <==> !HasString(d, CollectionCensoredNameKey)
    ensures DecodeItem(d).collectionCensoredName.Some? ==>
      d[CollectionCensoredNameKey] == JStr(DecodeItem(d).collectionCensoredName.value)
    ensures DecodeItem(d).trackCensoredName.None? <==> !HasString(d, TrackCensoredNameKey)
    ensures DecodeItem(d).trackCensoredName.Some? ==>
      d[TrackCensoredNameKey] == JStr(DecodeItem(d).trackCensoredName.value)
  {
    MatchesIff(d);
  }

  /** `isStreamable` is true only for a selected item holding the boolean `true`. */
  lemma StreamableOnlyTrue(d: Dict)
    ensures DecodeItem(d).isStreamable <==>
      ArtistMatches(d) && IsStreamableKey in d && d[IsStreamableKey] == JBool(true)
  {
    MatchesIff(d);
  }

  /** Songs the decode can produce: the blank one, or one whose artist name contains "Dempsey". */
  predicate Retained(s: Song) {
    s == Blank || Contains(s.artistName, Dempsey)
  }

  lemma DecodeIsRetained(d: Dict)
    ensures Retained(DecodeItem(d))
    ensures DecodeItem(d).artistName == "" <==> DecodeItem(d) == Blank
  {
  }

  /** Mapping distributes over concatenation: order is kept and nothing moves between items. */
  lemma TransformAppend(a: seq<Dict>, b: seq<Dict>)
    ensures Transform(a + b) == Transform(a) + Transform(b)
  {
    var l, r := Transform(a + b), Transform(a) + Transform(b);
    assert |l| == |r|;
    forall i | 0 <= i < |l| ensures l[i] == r[i] {
      if i < |a| {
        assert (a + b)[i] == a[i];
      } else {
        assert (a + b)[i] == b[i - |a|];
      }
    }
  }

  // ---------------------------------------------------------------------------
  // Persistence: the synthesized `Encodable` conformance, at the value level.

  /** A keyed container: every property under its own name; a nil optional is omitted. */
  function EncodeSong(s: Song): (d: Dict)
    ensures CollectionCensoredNameKey in d <==> s.collectionCensoredName.Some?
    ensures TrackCensoredNameKey in d <==> s.trackCensoredName.Some?
  {
    var fields := map[
      ArtistIdKey := JStr(s.artistId),
      CollectionIdKey := JStr(s.collectionId),
      TrackIdKey := JStr(s.trackId),
      ArtistNameKey := JStr(s.artistName),
      CollectionNameKey := JStr(s.collectionName),
      TrackNameKey := JStr(s.trackName),
      IsStreamableKey := JBool(s.isStreamable)];
    var withCollection := match s.collectionCensoredName
      case Some(c) => fields[CollectionCensoredNameKey := JStr(c)]
      case None => fields;
    match s.trackCensoredName
    case Some(t) => withCollection[TrackCensoredNameKey := JStr(t)]
    case None => withCollection
  }

  /** `JSONEncoder().encode(songs)`: a JSON array of encoded songs. */
  function EncodeSongs(songs: seq<Song>): (j: Json)
    ensures j.JArr? && |j.elems| == |songs|
    ensures forall i :: 0 <= i < |songs| ==> j.elems[i] == JObj(EncodeSong(songs[i]))
  {
    JArr(seq(|songs|, i requires 0 <= i < |songs| => JObj(EncodeSong(songs[i]))))
  }

  /** Every lenient field read of an encoded song gives back the field. */
  lemma EncodedFieldsRead(s: Song)
    ensures Text(EncodeSong(s), ArtistIdKey) == s.artistId
    ensures Text(EncodeSong(s), CollectionIdKey) == s.collectionId
    ensures Text(EncodeSong(s), TrackIdKey) == s.trackId
    ensures Text(EncodeSong(s), ArtistNameKey) == s.artistName
    ensures Text(EncodeSong(s), CollectionNameKey) == s.collectionName
    ensures Text(EncodeSong(s), TrackNameKey) == s.trackName
    ensures StringField(EncodeSong(s), CollectionCensoredNameKey) == s.collectionCensoredName
    ensures StringField(EncodeSong(s), TrackCensoredNameKey) == s.trackCensoredName
    ensures Flag(EncodeSong(s), IsStreamableKey) == s.isStreamable
  {
  }

  /** Decoding an encoded song with the item decode gives it back exactly when the decode could have produced it. */
  lemma EncodeDecodeRoundTrip(s: Song)
    ensures DecodeItem(EncodeSong(s)) == s <==> Retained(s)
  {
    EncodedFieldsRead(s);
    DecodeIsRetained(EncodeSong(s));
  }

  /** Running the cast and the filter again over the stored snapshot of a filter result changes nothing. */
  lemma SnapshotRefilter(items: seq<Dict>)
    ensures ArrayOfDicts(EncodeSongs(Transform(items))).Some?
    ensures Transform(ArrayOfDicts(EncodeSongs(Transform(items))).value) == Transform(items)
  {
    var songs := Transform(items);
    var j := EncodeSongs(songs);
    var dicts := ArrayOfDicts(j).value;
    var again := Transform(dicts);
    assert |again| == |songs|;
    forall i | 0 <= i < |songs| ensures again[i] == songs[i] {
      assert JObj(dicts[i]) == JObj(EncodeSong(songs[i]));
      DecodeIsRetained(items[i]);
      EncodeDecodeRoundTrip(songs[i]);
    }
  }
}
