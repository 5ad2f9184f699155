# RockSolidArchitecture — response handling of the song list screen

This project models the one piece of logic in the RockSolidArchitecture iOS
screen. That logic is the completion handler of `ViewController.fetchData()`
and the table data source that shows what the handler stored.

- The handler runs a chain of guards on the catalog search response. The guards reject a transport error, missing data, data that does not parse, a top level that is not an object, and a `results` value that is not an array of objects.
- A response that passes every guard is mapped item by item to `Song` records. Each field is read with a typed cast, and a failed cast falls back to a default.
- An item is kept only when its artist name contains the case-sensitive substring "Dempsey". Any other item becomes an all-blank song in the same position. Nothing is removed.
- The result replaces the controller's `songs` wholesale. It is also written to the `UserDefaults` store under `"foundSongs"`.
- The table shows one row per song: the track name as title and the artist name as subtitle.

Files:

- `wrappers.dfy` (module `Wrappers`): `Option`, standing in for Swift's `T?`, with `GetOr` for `??`.
- `json.dfy` (module `JsonValues`): the parsed JSON value, and the cast `as? [[String: Any]]`.
- `songs.dfy` (module `Songs`):
  - the `Song` record and the blank song;
  - the substring test; the field casts with defaults;
  - `DecodeItem` (the body of the map closure) and `Transform` (the map);
  - the value-level form of the synthesized `Encodable` conformance;
  - the lemmas about all of these.
- `controller.dfy` (module `Controller`):
  - the guard chain as the specification function `Accepted`;
  - the `UserDefaults` store as a class;
  - the `ViewController` class, with `HandleResponse` and the two table data source functions;
  - the lemmas tying rows back to the response;
  - scenario methods that run the handler on a fresh screen.

`HandleResponse` is proved against `Accepted` and `Transform`. If any guard
fails, neither `songs` nor the store changes. Otherwise `songs` becomes
`Transform(items)`, and only the `"foundSongs"` key of the store is
overwritten, with the encoding of the new songs. Each row `i` then shows what
item `i` of the response dictates. The class invariant `Valid` says that every
held song is either blank or has an artist name containing "Dempsey".
`CellForRowAt` relies on it: under the invariant, every row shows either two
empty strings or a subtitle containing "Dempsey".

A kept item does not keep every field exactly as received. Each `String`
field is read with `as? String ?? ""`, so an identifier that arrives as a JSON
number becomes `""` (see `Songs.NumericIdBecomesEmpty`).

## Model

| member | source | states |
|---|---|---|
| `JsonValues.AllDicts` | RockSolidArchitecture/ViewController.swift:54 | the cast of an element list to `[[String: Any]]` succeeds exactly when every element is an object, and then yields those objects in order, one per element |
| `JsonValues.ArrayOfDicts` | RockSolidArchitecture/ViewController.swift:54 | the cast of a JSON value succeeds only on an array, and then exactly when all of its elements are objects |
| `Songs.ContainsIff` | RockSolidArchitecture/ViewController.swift:64 | the substring test holds exactly when `sub` occurs in `s` at some position |
| `Songs.Contains` | RockSolidArchitecture/ViewController.swift:64 | the substring test; a match needs `sub` no longer than `s`, and `Songs.ContainsIff` states exactly when it holds |
| `Songs.StringField` | RockSolidArchitecture/ViewController.swift:71-72 | `dictionary[key] as? String` is present exactly when the key holds a string, and then it is that string |
| `Songs.Text` | RockSolidArchitecture/ViewController.swift:61-69 | `dictionary[key] as? String ?? ""` is the string under the key, or `""` when the key is missing or holds anything else |
| `Songs.Flag` | RockSolidArchitecture/ViewController.swift:73 | `(dictionary[key] as? Bool) ?? false` is true exactly when the key holds the boolean `true` |
| `Songs.DecodeItem` | RockSolidArchitecture/ViewController.swift:60-77 | the body of the map closure for one dictionary; what it yields is stated by `Songs.MatchesIff`, `Songs.DecodeKeepsMatching`, `Songs.NumericIdBecomesEmpty`, `Songs.DecodeBlanksOthers`, `Songs.CensoredNamesOptional`, `Songs.StreamableOnlyTrue` and `Songs.DecodeIsRetained` |
| `Songs.Transform` | RockSolidArchitecture/ViewController.swift:60-77 | the map gives exactly one song per result dictionary, and song `i` is the decode of dictionary `i` alone: the length and the order are kept |
| `Songs.TransformAppend` | RockSolidArchitecture/ViewController.swift:60-77 | mapping a concatenation gives the concatenation of the mapped parts, so no item affects another item's output |
| `Songs.MatchesIff` | RockSolidArchitecture/ViewController.swift:61-64 | an item is selected exactly when `artistName` is present, is a string, and contains "Dempsey"; a defaulted `""` never matches |
| `Songs.DecodeKeepsMatching` | RockSolidArchitecture/ViewController.swift:61-70 | a selected item keeps its artist name exactly; the track name, the three identifiers and the collection name are each the string found under their key, or `""` when the key is missing or not a string |
| `Songs.NumericIdBecomesEmpty` | RockSolidArchitecture/ViewController.swift:65-67 | on a selected item, a numeric `artistId`, `collectionId` or `trackId` becomes `""` |
| `Songs.DecodeBlanksOthers` | RockSolidArchitecture/ViewController.swift:64-75 | an item whose artist name is missing, is not a string or lacks "Dempsey" becomes the blank song: all strings `""`, both censored names absent, not streamable |
| `Songs.CensoredNamesOptional` | RockSolidArchitecture/ViewController.swift:71-72 | on a selected item, each censored name is absent exactly when its key is missing or not a string, and otherwise it is that string; it is never defaulted to `""` |
| `Songs.StreamableOnlyTrue` | RockSolidArchitecture/ViewController.swift:73 | `isStreamable` is true exactly when the item is selected and holds the boolean `true` under the key; a missing or non-boolean value gives false |
| `Songs.DecodeIsRetained` | RockSolidArchitecture/ViewController.swift:64-75 | every decoded song is blank or has an artist name containing "Dempsey", and it is blank exactly when its artist name is `""` |
| `Songs.EncodeSong` | RockSolidArchitecture/ViewController.swift:142 | the encoded dictionary has a censored-name key exactly when that optional is present, because nil optionals are omitted |
| `Songs.EncodeSongs` | RockSolidArchitecture/ViewController.swift:80 | encoding the song list gives an array with one encoded object per song, in order |
| `Songs.EncodedFieldsRead` | RockSolidArchitecture/ViewController.swift:142 | every lenient field read of an encoded song gives that song's field back, the censored names included |
| `Songs.EncodeDecodeRoundTrip` | RockSolidArchitecture/ViewController.swift:142 | decoding an encoded song with the item decode gives the song back exactly when the song is blank or its artist name contains "Dempsey" |
| `Songs.SnapshotRefilter` | RockSolidArchitecture/ViewController.swift:80-81 | the stored snapshot of a filter result passes the array-of-objects cast, and filtering it again returns the same songs |
| `Controller.ResultsOf` | RockSolidArchitecture/ViewController.swift:53-54 | `as? [String: Any]` then `["results"] as? [[String: Any]]` succeeds only on an object whose `results` is an array, and yields one dictionary per element |
| `Controller.Accepted` | RockSolidArchitecture/ViewController.swift:42-57 | the guard chain as a whole; which responses pass and what they yield is stated by `Controller.AcceptedIff` |
| `Controller.AcceptedIff` | RockSolidArchitecture/ViewController.swift:42-57 | the guards pass, yielding `items`, exactly when: there is no transport error; data is present and parsed; the top level is an object; its `results` is an array whose elements are exactly the objects `items` |
| `Controller.RejectsNonObjectElement` | RockSolidArchitecture/ViewController.swift:54-57 | a single non-object element of `results` rejects the whole payload |
| `Controller.UserDefaults.Set` | RockSolidArchitecture/ViewController.swift:81 | writing a key overwrites that key and leaves every other key unchanged |
| `Controller.ViewController.constructor` | RockSolidArchitecture/ViewController.swift:23 | the screen starts with no songs |
| `Controller.ViewController.HandleResponse` | RockSolidArchitecture/ViewController.swift:41-83 | on a failed guard `songs` and the store are unchanged; otherwise `songs` is replaced by the filtered result, only `"foundSongs"` is overwritten (with the encoding of the new songs), the row count is the number of result dictionaries, and row `i` shows what item `i` dictates; every held song stays blank or "Dempsey" |
| `Controller.ViewController.NumberOfRowsInSection` | RockSolidArchitecture/ViewController.swift:96-98 | the row count is the number of songs held |
| `Controller.ViewController.CellForRowAt` | RockSolidArchitecture/ViewController.swift:100-105 | row `i` shows song `i`'s track name as title and its artist name as subtitle; while the class invariant holds, a row is either two empty strings or has a subtitle containing "Dempsey" |
| `Controller.Display` | RockSolidArchitecture/ViewController.swift:104-105 | the cell of one song; `Controller.CellOfItem` states what it shows for the song decoded from an item |
| `Controller.CellOfItem` | RockSolidArchitecture/ViewController.swift:103-105 | the row for an item shows its track name (or `""`) and artist name when it is selected, and two empty strings otherwise |
| `Controller.DempseyItemKept` | RockSolidArchitecture/ViewController.swift:64-73 | an item with artist "Ryan Dempsey" and track "Song A" decodes to a song with those two names and every other field at its default |
| `Controller.OtherItemBlanked` | RockSolidArchitecture/ViewController.swift:74-75 | an item with artist "Other" decodes to the blank song |
| `Controller.TwoItemAccepted` | RockSolidArchitecture/ViewController.swift:53-57 | the two-item payload passes every guard and yields its two dictionaries in order |
| `Controller.TwoItemScenario` | RockSolidArchitecture/ViewController.swift:54-77 | the two-item payload passes the guards and gives two rows: ("Song A", "Ryan Dempsey") and ("", "") |
| `Controller.TransportErrorScenario` | RockSolidArchitecture/ViewController.swift:42-45 | on a fresh screen, a transport error leaves zero rows and the store as it was |
| `Controller.TwoItemResponseScenario` | RockSolidArchitecture/ViewController.swift:59-78 | on a fresh screen, the two-item payload gives two rows: ("Song A", "Ryan Dempsey") and ("", "") |
| `Controller.StoreScenario` | RockSolidArchitecture/ViewController.swift:80-81 | after the two-item payload, "foundSongs" holds the encoding of the new songs and an unrelated key keeps its value |

## Left out

- Networking is left out: URL construction, the request and its `Accept` header, and `URLSession` (lines 35-41, 89). The transport error and the received data are parameters of `HandleResponse`.
- The hop to the main queue on line 59 is left out, because it is thread hand-off. The handler is modelled as one synchronous step.
- `JSONSerialization`'s byte parsing is left out. Its outcome is handed in as a `Parse` value, and its thrown-error path (lines 84-86) is the `Unparseable` case, which changes nothing.
- `JSONEncoder`'s byte format and the on-device persistence of `UserDefaults` are left out. The store maps keys to the JSON values that the synthesized `Encodable` conformance would produce.
- The `try?` encoding failure on line 80 is treated as impossible. A value of this data model always encodes.
- `String.contains` is modelled as a plain substring test on characters. Unicode grapheme and canonical-equivalence semantics are not modelled.
- `as? Bool` is modelled as succeeding only on a JSON boolean. The bridging of `NSNumber` 0/1 to `Bool` is not modelled.
- JSON numbers are kept as mathematical reals. The model never inspects them; it only needs to tell them apart from strings and booleans.
- `tableView.reloadData()` (line 78) is left out. The table functions read `songs` directly, so the displayed rows are always those of the current `songs`.
- `Controller.ViewController.CellForRowAt` requires the row to be in range. The table view only asks for rows below the count that the data source reported.
- Cell dequeueing, `SongTableViewCell` layout, `viewDidLoad` wiring and `print` logging are left out, because they are UI plumbing and output (lines 25-32, 101, 111-140).
