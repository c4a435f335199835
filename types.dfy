/** The shapes of the catalogue data that the prompts work on. */
module Types {
  import opened Js

  /** A field value as the prompts see it: a string, a list of artist
      objects of which only the names are ever read, or any other object
      (an album inside a track, say). */
  datatype Value = Text(text: string) | Artists(names: seq<string>) | Obj

  /** One own property of a catalogue object, in the object's key order. */
  datatype Field = Field(key: string, value: Value)

  /** An album, artist or track object returned by a search. Its id and uri
      are kept apart; `fields` holds the properties that formatting walks. */
  datatype SearchResult = SearchResult(id: string, uri: string, fields: seq<Field>)

  /** A record read from the CSV import: field name to value. */
  type SearchTarget = seq<Entry>

  datatype PossibleMatch = PossibleMatch(target: SearchTarget, matches: seq<SearchResult>)

  datatype Matches = Matches(unmatched: seq<SearchTarget>, definite: seq<SearchResult>, possible: seq<PossibleMatch>)

  /** A string record seen as an object whose properties are all strings. */
  function TargetFields(target: SearchTarget): (fields: seq<Field>)
    ensures |fields| == |target|
    ensures forall i :: 0 <= i < |target| ==> fields[i] == Field(target[i].key, Text(target[i].value))
  {
    seq(|target|, i requires 0 <= i < |target| => Field(target[i].key, Text(target[i].value)))
  }
}
