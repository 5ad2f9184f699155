/**
 * The screen controller: the guard chain of the `fetchData` completion
 * handler, the `UserDefaults` store it mirrors the result into, and the table
 * data source that displays `songs`.
 */
module Controller {
  import opened Wrappers
  import opened JsonValues
  import opened Songs

  /** The key the result is mirrored under. */
  const FoundSongsKey := "foundSongs"
  /** The top-level key holding the result dictionaries. */
  const ResultsKey := "results"

  /** What `JSONSerialization.jsonObject(with: data)` produced from the received bytes: it threw, or gave a value. */
  datatype Parse = Unparseable | Parsed(value: Json)

  /** `json?["results"] as? [[String: Any]]`, after `as? [String: Any]` on the parsed value. */
  function ResultsOf(json: Json): (r: Option<seq<Dict>>)
    ensures r.Some? ==> json.JObj? && ResultsKey in json.obj && json.obj[ResultsKey].JArr?
    ensures r.Some? ==> |r.value| == |json.obj[ResultsKey].elems|
  {
    match json
    case JObj(top) => if ResultsKey in top then ArrayOfDicts(top[ResultsKey]) else None
    case _ => None
  }

  /**
   * The guard chain as a whole: the result dictionaries when no transport
   * error was reported, data arrived, it parsed, the top level is an object
   * and its `results` is an array of objects; `None` otherwise.
   */
  function Accepted(error: bool, data: Option<Parse>): Option<seq<Dict>> {
    if error then None
    else match data
      case None => None
      case Some(Unparseable) => None
      case Some(Parsed(json)) => ResultsOf(json)
  }

  /** Exactly which responses pass every guard, and what they yield. */
  lemma AcceptedIff(error: bool, data: Option<Parse>, items: seq<Dict>)
    ensures Accepted(error, data) == Some(items) <==>
      !error && data.Some? && data.value.Parsed? && data.value.value.JObj?
      && ResultsKey in data.value.value.obj
      && data.value.value.obj[ResultsKey].JArr?
      && |data.value.value.obj[ResultsKey].elems| == |items|
      && forall i :: 0 <= i < |items| ==> data.value.value.obj[ResultsKey].elems[i] == JObj(items[i])
  {
    if !error && data.Some? && data.value.Parsed? && data.value.value.JObj?
      && ResultsKey in data.value.value.obj && data.value.value.obj[ResultsKey].JArr?
    {
      var elems := data.value.value.obj[ResultsKey].elems;
      if |elems| == |items| && forall i :: 0 <= i < |items| ==> elems[i] == JObj(items[i]) {
        var r := ArrayOfDicts(data.value.value.obj[ResultsKey]);
        assert r.Some?;
        assert r.value == items;
      }
    }
  }

  /** One element of `results` that is not an object rejects the whole payload. */
  lemma RejectsNonObjectElement(top: Dict, k: nat)
    requires ResultsKey in top && top[ResultsKey].JArr?
    requires k < |top[ResultsKey].elems| && !top[ResultsKey].elems[k].JObj?
    ensures Accepted(false, Some(Parsed(JObj(top)))) == None
  {
  }

  /** The cell content of one row. */
  datatype Cell = Cell(title: string, subtitle: string)

  /** The row an item should produce, read straight from its dictionary. */
  ghost function ExpectedCell(d: Dict): Cell {
    if ArtistMatches(d) then
      Cell(if HasString(d, TrackNameKey) then d[TrackNameKey].str else "", d[ArtistNameKey].str)
    else
      Cell("", "")
  }

  /** The persistent key-value store (`UserDefaults.standard`), abstracted to JSON values. */
  class UserDefaults {
    var values: map<string, Json>

    constructor (initial: map<string, Json>)
      ensures values == initial
    {
      values := initial;
    }

    /** `set(_:forKey:)`: overwrite one key. */
    method Set(value: Json, key: string)
      modifies this
      ensures values == old(values)[key := value]
    {
      values := values[key := value];
    }
  }

  class ViewController {
    var songs: seq<Song>
    const defaults: UserDefaults

    /** Every song held is one the item decode can produce. */
    predicate Valid()
      reads this
    {
      forall i :: 0 <= i < |songs| ==> Retained(songs[i])
    }

    constructor (defaults: UserDefaults)
      ensures this.defaults == defaults
      ensures songs == []
      ensures Valid()
    {
      this.defaults := defaults;
      songs := [];
    }

    /**
     * The completion handler, run synchronously: on any failed guard nothing
     * changes; otherwise `songs` is replaced by the filtered result and the
     * stored "foundSongs" is overwritten with its encoding.
     */
    method HandleResponse(error: bool, data: Option<Parse>)
      requires Valid()
      modifies this, defaults
      ensures Valid()
      ensures Accepted(error, data).None? ==>
        songs == old(songs) && defaults.values == old(defaults.values)
      ensures Accepted(error, data).Some? ==>
        songs == Transform(Accepted(error, data).value)
        && defaults.values == old(defaults.values)[FoundSongsKey := EncodeSongs(songs)]
      ensures Accepted(error, data).Some? ==>
        NumberOfRowsInSection() == |Accepted(error, data).value|
        && forall i :: 0 <= i < NumberOfRowsInSection() ==>
             CellForRowAt(i) == ExpectedCell(Accepted(error, data).value[i])
    {
      if error {
        return;
      }
      if data.None? {
        return;
      }
      if data.value.Unparseable? {
        return;
      }
      var jsonsongs := ResultsOf(data.value.value);
      if jsonsongs.None? {
        return;
      }
      var items := jsonsongs.value;
      songs := Transform(items);
      forall i | 0 <= i < |songs| ensures Retained(songs[i]) && CellForRowAt(i) == ExpectedCell(items[i]) {
        DecodeIsRetained(items[i]);
        CellOfItem(items[i]);
      }
      defaults.Set(EncodeSongs(songs), FoundSongsKey);
    }

    /** `tableView(_:numberOfRowsInSection:)` */
    function NumberOfRowsInSection(): (n: nat)
      reads this
      ensures n == |songs|
    {
      |songs|
    }

    /** `tableView(_:cellForRowAt:)`: title is the track name, subtitle the artist name. */
    function CellForRowAt(row: nat): (c: Cell)
      reads this
      requires row < |songs|
      ensures c.title == songs[row].trackName && c.subtitle == songs[row].artistName
      ensures Valid() ==> c == Cell("", "") || Contains(c.subtitle, Dempsey)
    {
      Display(songs[row])
    }
  }

  function Display(s: Song): Cell {
    Cell(s.trackName, s.artistName)
  }

  /** The cell shown for an item is its track and artist name when selected, and two empty strings otherwise. */
  lemma CellOfItem(d: Dict)
    ensures Display(DecodeItem(d)) == ExpectedCell(d)
  {
    if ArtistMatches(d) {
      DecodeKeepsMatching(d);
    } else {
      DecodeBlanksOthers(d);
    }
  }

  /** The first result dictionary of the two-item scenario. */
  function DempseyItem(): Dict {
    map[ArtistNameKey := JStr("Ryan Dempsey"), TrackNameKey := JStr("Song A")]
  }

  /** The second result dictionary of the two-item scenario. */
  function OtherItem(): Dict {
    map[ArtistNameKey := JStr("Other"), TrackNameKey := JStr("Song B")]
  }

  lemma DempseyItemKept()
    ensures DecodeItem(DempseyItem()) == Song("", "", "", "Ryan Dempsey", "", "Song A", None, None, false)
  {
    var d := DempseyItem();
    assert OccursAt("Ryan Dempsey", Dempsey, 5);
    MatchesIff(d);
    assert Matches(d);
    assert Text(d, ArtistNameKey) == "Ryan Dempsey" && Text(d, TrackNameKey) == "Song A";
    assert Text(d, ArtistIdKey) == "" && Text(d, CollectionIdKey) == "" && Text(d, TrackIdKey) == "";
    assert Text(d, CollectionNameKey) == "";
    assert StringField(d, CollectionCensoredNameKey) == None && StringField(d, TrackCensoredNameKey) == None;
    assert !Flag(d, IsStreamableKey);
  }

  lemma OtherItemBlanked()
    ensures DecodeItem(OtherItem()) == Blank
  {
  }

  /** The songs the two scenario items decode to, in order. */
  function TwoItemSongs(): seq<Song> {
    [Song("", "", "", "Ryan Dempsey", "", "Song A", None, None, false), Blank]
  }

  /** A payload whose `results` are the two scenario items. */
  function TwoItemPayload(): Json {
    JObj(map[ResultsKey := JArr([JObj(DempseyItem()), JObj(OtherItem())])])
  }

  lemma TwoItemAccepted()
    ensures Accepted(false, Some(Parsed(TwoItemPayload()))) == Some([DempseyItem(), OtherItem()])
  {
    AcceptedIff(false, Some(Parsed(TwoItemPayload())), [DempseyItem(), OtherItem()]);
  }

  /**
   * A payload with one "Ryan Dempsey" item and one "Other" item: two rows, the
   * first showing the kept names, the second blank.
   */
  lemma TwoItemScenario()
    ensures Accepted(false, Some(Parsed(TwoItemPayload()))) == Some([DempseyItem(), OtherItem()])
    ensures Transform([DempseyItem(), OtherItem()]) == TwoItemSongs()
    ensures Display(TwoItemSongs()[0]) == Cell("Song A", "Ryan Dempsey")
    ensures Display(TwoItemSongs()[1]) == Cell("", "")
  {
    TwoItemAccepted();
    var a, b := DempseyItem(), OtherItem();
    var songs := Transform([a, b]);
    assert songs == [DecodeItem(a), DecodeItem(b)];
    DempseyItemKept();
    OtherItemBlanked();
  }

  /** On a fresh screen, a transport error changes neither the rows nor the store. */
  method TransportErrorScenario()
  {
    var store := new UserDefaults(map["other" := JNull]);
    var screen := new ViewController(store);
    screen.HandleResponse(true, None);
    assert screen.NumberOfRowsInSection() == 0;
    assert store.values == map["other" := JNull];
  }

  /** On a fresh screen, the two-item payload gives two rows. */
  method TwoItemResponseScenario()
  {
    var store := new UserDefaults(map[]);
    var screen := new ViewController(store);
    TwoItemScenario();
    screen.HandleResponse(false, Some(Parsed(TwoItemPayload())));
    assert screen.songs == TwoItemSongs();
    assert screen.NumberOfRowsInSection() == 2;
    assert screen.CellForRowAt(0) == Cell("Song A", "Ryan Dempsey");
    assert screen.CellForRowAt(1) == Cell("", "");
  }

  /** A successful response overwrites "foundSongs" and leaves every other stored key alone. */
  method StoreScenario()
  {
    var store := new UserDefaults(map["other" := JNull, FoundSongsKey := JNull]);
    var screen := new ViewController(store);
    TwoItemAccepted();
    screen.HandleResponse(false, Some(Parsed(TwoItemPayload())));
    assert store.values[FoundSongsKey] == EncodeSongs(screen.songs);
    assert "other" != FoundSongsKey by { assert |"other"| != |FoundSongsKey|; }
    assert store.values["other"] == JNull;
  }
}
