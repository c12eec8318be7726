/**
 * `get_meaning` and `main` of src/segmentize_and_lookup.py: one lookup task per
 * extracted word, each writing its record into the shared dictionary and
 * advancing the shared progress bar.
 *
 * `get_meaning` contains no `await` and its request is synchronous, so every
 * task runs from start to end without interleaving; the fan-out is therefore a
 * sequential loop over the word set, in an order the model leaves open.
 */
module Orchestrator {
  import opened Results
  import opened Validator
  import opened Extractor
  import opened Progress
  import opened Lookup

  /** The dictionary `meanings` that all tasks share and write into. */
  class ResultMapping {
    var entries: map<string, Definition>

    /** `meanings = {}`. */
    constructor ()
      ensures entries == map[]
    {
      entries := map[];
    }
  }

  /** `get_meaning`: look the word up; on success store its record and advance
      the bar. Any lookup error is raised before either write. */
  method GetMeaning(dictionary: ResultMapping, word: string, bar: ProgressBar,
                    fetch: string -> Option<Response>)
    returns (outcome: Result<Definition, LookupError>)
    modifies dictionary, bar
    ensures outcome == LookupWord(fetch(word))
    ensures outcome.Success? ==>
      dictionary.entries == old(dictionary.entries)[word := outcome.value] &&
      bar.value == old(bar.value) + 1
    ensures outcome.Failure? ==>
      dictionary.entries == old(dictionary.entries) && bar.value == old(bar.value)
    ensures bar.high == old(bar.high) && bar.size == old(bar.size)
  {
    outcome := LookupWord(fetch(word));
    if outcome.Success? {
      dictionary.entries := dictionary.entries[word := outcome.value];
      // Rendering can only raise after both updates, so its result changes no state.
      var _ := bar.Increment();
    }
  }

  /** The records that the lookups of `words` produce, keyed by word. */
  function Resolved(words: set<string>, fetch: string -> Option<Response>): (records: map<string, Definition>)
  {
    map w | w in words && LookupWord(fetch(w)).Success? :: LookupWord(fetch(w)).value
  }

  /** A word is a key of the result exactly when it was looked up and the
      lookup succeeded, and its value is the parsed record. */
  lemma ResolvedKeys(words: set<string>, fetch: string -> Option<Response>, w: string)
    ensures w in Resolved(words, fetch) <==> w in words && LookupWord(fetch(w)).Success?
    ensures w in Resolved(words, fetch) ==> Resolved(words, fetch)[w] == LookupWord(fetch(w)).value
  {
  }

  /** One more word adds its record if its lookup succeeds and leaves every
      other entry as it was. */
  lemma ResolvedInsert(done: set<string>, w: string, fetch: string -> Option<Response>)
    requires w !in done
    ensures LookupWord(fetch(w)).Success? ==>
      Resolved(done + {w}, fetch) == Resolved(done, fetch)[w := LookupWord(fetch(w)).value] &&
      |Resolved(done + {w}, fetch)| == |Resolved(done, fetch)| + 1
    ensures LookupWord(fetch(w)).Failure? ==>
      Resolved(done + {w}, fetch) == Resolved(done, fetch)
  {
    var before, after := Resolved(done, fetch), Resolved(done + {w}, fetch);
    var outcome := LookupWord(fetch(w));
    if outcome.Success? {
      var updated := before[w := outcome.value];
      assert after.Keys == updated.Keys;
      assert w !in before;
    } else {
      assert after.Keys == before.Keys;
    }
  }

  /** No word, no record. */
  lemma ResolvedNothing(fetch: string -> Option<Response>)
    ensures Resolved({}, fetch) == map[]
  {
  }

  /** Merging nothing leaves a dictionary as it was. */
  lemma MergeNothing(base: map<string, Definition>)
    ensures base + map[] == base
  {
  }

  /** Storing one more record after a merge is the merge with that record. */
  lemma MergeInsert(base: map<string, Definition>, added: map<string, Definition>,
                    w: string, d: Definition)
    ensures (base + added)[w := d] == base + added[w := d]
  {
  }

  /** Moving one word from the pending set to the done set keeps them
      disjoint and keeps their union. */
  lemma MoveOne(done: set<string>, remaining: set<string>, w: string)
    requires done !! remaining && w in remaining
    ensures (done + {w}) !! (remaining - {w})
    ensures (done + {w}) + (remaining - {w}) == done + remaining
  {
  }

  /** With nothing pending, the done set is the whole union. */
  lemma NothingLeft(done: set<string>, remaining: set<string>)
    requires remaining == {}
    ensures done + remaining == done
  {
  }

  /** A subset is no larger than its superset, and equally large only when equal. */
  lemma {:induction false} SubsetSize<T>(a: set<T>, b: set<T>)
    requires a <= b
    ensures |a| <= |b|
    ensures |a| == |b| ==> a == b
  {
    if b != {} {
      var x :| x in b;
      if x in a {
        SubsetSize(a - {x}, b - {x});
      } else {
        SubsetSize(a, b - {x});
      }
    }
  }

  /** There are never more records than words looked up. */
  lemma ResolvedBound(words: set<string>, fetch: string -> Option<Response>)
    ensures |Resolved(words, fetch)| <= |words|
  {
    SubsetSize(Resolved(words, fetch).Keys, words);
  }

  /** Every word gets a record exactly when every lookup succeeds. */
  lemma ResolvedAllIff(words: set<string>, fetch: string -> Option<Response>)
    ensures |Resolved(words, fetch)| == |words| <==> forall w :: w in words ==> LookupWord(fetch(w)).Success?
  {
    var keys := Resolved(words, fetch).Keys;
    SubsetSize(keys, words);
    if |keys| == |words| {
      forall w | w in words ensures LookupWord(fetch(w)).Success? {
        assert w in keys;
      }
    } else {
      assert keys != words;
      var w :| w in words && w !in keys;
      assert !LookupWord(fetch(w)).Success?;
    }
  }

  /** After the fan-out the bar is completely filled exactly when every
      lookup succeeded; one failure leaves it short of the end. */
  lemma FullBarIffAllResolved(words: set<string>, fetch: string -> Option<Response>)
    requires words != {}
    ensures FilledCount(|words|, |Resolved(words, fetch)|) == Cells <==>
            forall w :: w in words ==> LookupWord(fetch(w)).Success?
  {
    ResolvedBound(words, fetch);
    ResolvedAllIff(words, fetch);
    FullIff(|words|, |Resolved(words, fetch)|);
  }

  /** A lookup that returns the response built for a record stores exactly that record. */
  lemma ResolvedRecord(words: set<string>, fetch: string -> Option<Response>, w: string, d: Definition)
    requires w in words && fetch(w) == Some(ResponseFor(d))
    ensures w in Resolved(words, fetch) && Resolved(words, fetch)[w] == d
  {
  }

  /** Lines 62-64 of `main`: a bar for the word count, one `get_meaning` per
      word, and `aio.wait`, which raises ValueError when there is no task
      (`waited` is false) and never re-raises a task's exception. */
  method Dispatch(words: set<string>, dictionary: ResultMapping, fetch: string -> Option<Response>)
    returns (bar: ProgressBar, waited: bool)
    modifies dictionary
    ensures fresh(bar) && bar.high == |words| && bar.size == 50
    ensures dictionary.entries == old(dictionary.entries) + Resolved(words, fetch)
    ensures bar.value == |Resolved(words, fetch)| <= bar.high
    ensures waited == (words != {})
  {
    bar := new ProgressBar(|words|);
    var remaining := words;
    ghost var done: set<string> := {};
    ResolvedNothing(fetch);
    MergeNothing(dictionary.entries);
    while remaining != {}
      invariant done !! remaining && done + remaining == words
      invariant bar.high == |words| && bar.size == 50
      invariant dictionary.entries == old(dictionary.entries) + Resolved(done, fetch)
      invariant bar.value == |Resolved(done, fetch)|
      decreases remaining
    {
      var w :| w in remaining;
      var outcome := GetMeaning(dictionary, w, bar, fetch);
      ResolvedInsert(done, w, fetch);
      if outcome.Success? {
        MergeInsert(old(dictionary.entries), Resolved(done, fetch), w, outcome.value);
      }
      MoveOne(done, remaining, w);
      remaining := remaining - {w};
      done := done + {w};
    }
    NothingLeft(done, remaining);
    ResolvedBound(words, fetch);
    waited := words != {};
  }

  /** `main`: extract the word set from the tokenizer's output, report its
      size (`extracted`), then dispatch the lookups. */
  method Run(meanings: ResultMapping, cc: CharClasses, tokens: seq<string>,
             fetch: string -> Option<Response>)
    returns (extracted: nat, waited: bool)
    modifies meanings
    ensures extracted == |ExtractWords(cc, tokens)| <= |tokens|
    ensures meanings.entries == old(meanings.entries) + Resolved(ExtractWords(cc, tokens), fetch)
    ensures waited == (extracted > 0)
  {
    var words := ExtractWords(cc, tokens);
    extracted := |words|;
    var bar;
    bar, waited := Dispatch(words, meanings, fetch);
  }

  /** The script's top level: run `main` on an empty dictionary and print its
      entries, which does not happen when `main` raised. */
  method Script(cc: CharClasses, tokens: seq<string>, fetch: string -> Option<Response>)
    returns (printed: Option<map<string, Definition>>)
    ensures printed == if ExtractWords(cc, tokens) == {} then None
                       else Some(Resolved(ExtractWords(cc, tokens), fetch))
  {
    var meanings := new ResultMapping();
    var extracted, waited := Run(meanings, cc, tokens, fetch);
    printed := if waited then Some(meanings.entries) else None;
    assert map[] + Resolved(ExtractWords(cc, tokens), fetch) == Resolved(ExtractWords(cc, tokens), fetch);
    assert ExtractWords(cc, tokens) == {} <==> extracted == 0;
  }
}
