/**
 * The parsing half of `get_meaning` in src/segmentize_and_lookup.py: from the
 * dictionary service's JSON response to the stored record.
 */
module Lookup {
  import opened Results

  /** One item of an entry's `japanese` list; only `reading` is consumed. */
  datatype Japanese = Japanese(reading: string)

  /** One item of an entry's `senses` list. */
  datatype Sense = Sense(englishDefinitions: seq<string>)

  /** One item of the response's `data` list. */
  datatype Entry = Entry(japanese: seq<Japanese>, senses: seq<Sense>)

  /** The decoded response body `{ data: [...] }`. */
  datatype Response = Response(data: seq<Entry>)

  /** The record stored for a word: `{'reading': ..., 'meanings': [...]}`. */
  datatype Definition = Definition(reading: string, meanings: seq<string>)

  /** Why a lookup raised before storing anything. */
  datatype LookupError =
    | RequestFailed          // the request, `.json()` or the key lookups raised
    | NoEntries              // `['data'][0]` on an empty list
    | NoJapanese             // `['japanese'][0]` on an empty list
    | NoDefinition(sense: nat) // `['english_definitions'][0]` empty in this sense

  /** The list comprehension over `senses`: each sense's first English
      definition, in order; it raises at the first sense without one. */
  function FirstDefinitions(senses: seq<Sense>): (r: Result<seq<string>, nat>)
    ensures r.Success? <==> forall i :: 0 <= i < |senses| ==> senses[i].englishDefinitions != []
    ensures r.Success? ==>
      && |r.value| == |senses|
      && forall i :: 0 <= i < |senses| ==> r.value[i] == senses[i].englishDefinitions[0]
    ensures r.Failure? ==>
      && r.error < |senses|
      && senses[r.error].englishDefinitions == []
      && forall j :: 0 <= j < r.error ==> senses[j].englishDefinitions != []
  {
    if senses == [] then Success([])
    else if senses[0].englishDefinitions == [] then Failure(0)
    else
      match FirstDefinitions(senses[1..])
      case Success(rest) => Success([senses[0].englishDefinitions[0]] + rest)
      case Failure(i) => Failure(i + 1)
  }

  /** The record built from a decoded response, or the error raised on the way. */
  function ParseDefinition(resp: Response): (r: Result<Definition, LookupError>)
    ensures r.Success? <==>
      && resp.data != []
      && resp.data[0].japanese != []
      && forall i :: 0 <= i < |resp.data[0].senses| ==> resp.data[0].senses[i].englishDefinitions != []
    ensures r.Success? ==>
      && r.value.reading == resp.data[0].japanese[0].reading
      && |r.value.meanings| == |resp.data[0].senses|
      && forall i :: 0 <= i < |r.value.meanings| ==>
           r.value.meanings[i] == resp.data[0].senses[i].englishDefinitions[0]
    ensures r == Failure(NoEntries) <==> resp.data == []
    ensures r == Failure(NoJapanese) <==> resp.data != [] && resp.data[0].japanese == []
  {
    if resp.data == [] then Failure(NoEntries)
    else
      var entry := resp.data[0];
      if entry.japanese == [] then Failure(NoJapanese)
      else
        match FirstDefinitions(entry.senses)
        case Success(meanings) => Success(Definition(entry.japanese[0].reading, meanings))
        case Failure(i) => Failure(NoDefinition(i))
  }

  /** One lookup, given what the service returned for the word (None when the
      request or the decoding raised). */
  function LookupWord(response: Option<Response>): (r: Result<Definition, LookupError>)
    ensures response.None? ==> r == Failure(RequestFailed)
    ensures response.Some? ==> r == ParseDefinition(response.value)
    ensures r == Failure(RequestFailed) ==> response.None?
  {
    match response
    case None => Failure(RequestFailed)
    case Some(resp) => ParseDefinition(resp)
  }

  /** The smallest response the service could send for a record. */
  function ResponseFor(d: Definition): (resp: Response)
  {
    Response([Entry([Japanese(d.reading)], seq(|d.meanings|, i requires 0 <= i < |d.meanings| => Sense([d.meanings[i]])))])
  }

  /** Parsing gives back exactly the record the response was built from. */
  lemma ParseResponseFor(d: Definition)
    ensures ParseDefinition(ResponseFor(d)) == Success(d)
  {
    var r := ParseDefinition(ResponseFor(d));
    assert r.Success?;
    assert r.value.meanings == d.meanings;
  }

  /** Only the first entry is consumed: the entries after it never change the result. */
  lemma OnlyFirstEntry(e: Entry, rest: seq<Entry>)
    ensures ParseDefinition(Response([e] + rest)) == ParseDefinition(Response([e]))
  {
  }

  /** Only the first definition of each sense is consumed: senses that agree on
      whether they have a definition, and on the first one, give the same result. */
  lemma {:induction false} OnlyFirstDefinitions(senses: seq<Sense>, other: seq<Sense>)
    requires |senses| == |other|
    requires forall i :: 0 <= i < |senses| ==>
      (senses[i].englishDefinitions == []) == (other[i].englishDefinitions == [])
    requires forall i :: 0 <= i < |senses| && senses[i].englishDefinitions != [] ==>
      senses[i].englishDefinitions[0] == other[i].englishDefinitions[0]
    ensures FirstDefinitions(senses) == FirstDefinitions(other)
  {
    if senses != [] {
      OnlyFirstDefinitions(senses[1..], other[1..]);
    }
  }
}
