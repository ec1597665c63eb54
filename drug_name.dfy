/** Choosing the drug name to look up: the first whitespace-delimited token
    of the clinician's query, `user_query.split()[0]`, reached only when the
    query is non-empty (`if user_query:`). */
module DrugName {
  import opened JsonValue
  import opened TextSplit

  /** The candidate name, or the exception `split()[0]` raises. */
  datatype Pick = Picked(name: string) | PickRaised(error: Raised)

  /** `query.split()[0]`. */
  function FirstWord(query: string): (r: Pick)
    ensures r.PickRaised? <==> AllSpace(query)
    ensures r.PickRaised? ==> r.error == IndexError
    ensures r.Picked? ==> IsWord(r.name)
  {
    var words := Words(query);
    WordsEmptyIff(query);
    WordsAreWords(query);
    if |words| == 0 then PickRaised(IndexError) else Picked(words[0])
  }

  /** The first token is exactly the first maximal run of non-whitespace
      characters after the leading whitespace; there is none, and indexing
      raises IndexError, exactly when the query is all whitespace. */
  lemma FirstWordSpec(query: string)
    ensures FirstWord(query).PickRaised? <==> AllSpace(query)
    ensures FirstWord(query).PickRaised? ==> FirstWord(query).error == IndexError
    ensures FirstWord(query).Picked? ==>
      var t := FirstWord(query).name;
      && IsWord(t)
      && exists k :: && 0 <= k && k + |t| <= |query|
                     && AllSpace(query[..k]) && query[k..k + |t|] == t
                     && (k + |t| == |query| || IsSpace(query[k + |t|]))
  {
    if !AllSpace(query) {
      WordsHead(query);
      var k := SpaceRun(query);
      assert k + |FirstWord(query).name| <= |query|;
    }
  }



  // ---------------------------------------------------------------------
  // What the application does with a submitted query

  /** What happens to a submitted query: nothing yet (no input), a lookup of
      the candidate name, or an exception that escapes to the user. */
  datatype Action = Idle | Lookup(name: string) | Crash(error: Raised)

  /** The application as written: `if user_query:` only skips the empty
      string, so a query of whitespace alone reaches `split()[0]`. */
  function DispatchAsWritten(query: string): (r: Action)
    ensures r.Crash? <==> query != [] && AllSpace(query)
    ensures r.Crash? ==> r.error == IndexError
    ensures r.Lookup? ==> IsWord(r.name)
  {
    if query == [] then Idle
    else match FirstWord(query) {
      case Picked(name) => Lookup(name)
      case PickRaised(e) => Crash(e)
    }
  }

  /** A query of one space passes the guard and crashes with IndexError. */
  lemma WhitespaceQueryCrashes()
    ensures DispatchAsWritten(" ") == Crash(IndexError)
  {
    FirstWordSpec(" ");
  }

  /** The evidently intended behaviour: look up the first token when there
      is one, and wait for input otherwise. */
  function Dispatch(query: string): (r: Action)
    ensures !r.Crash?
    ensures r.Idle? <==> AllSpace(query)
    ensures r.Lookup? ==> IsWord(r.name)
  {
    match FirstWord(query) {
      case Picked(name) => Lookup(name)
      case PickRaised(_) => Idle
    }
  }

  /** The corrected dispatch never crashes, waits exactly when the query has
      no token, and otherwise looks up the same name as the code as written. */
  lemma DispatchSafe(query: string)
    ensures !Dispatch(query).Crash?
    ensures Dispatch(query).Idle? <==> AllSpace(query)
    ensures !DispatchAsWritten(query).Crash? ==> Dispatch(query) == DispatchAsWritten(query)
    ensures DispatchAsWritten(query).Crash? <==> query != [] && AllSpace(query)
  {
    FirstWordSpec(query);
  }
}
