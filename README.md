# Clinical query: label-field extraction and drug-name selection

This project models, in Dafny, the data-handling core of a small Streamlit
application that answers a clinician's question from FDA drug-label data
(`streamlit_app.py`). Two pieces of that file are modelled:

- `extract_drug_info` (lines 24-64): given the decoded JSON response of the
  OpenFDA drug-label endpoint, it walks a fixed catalogue of 21 dotted paths
  (`'Brand Name': 'openfda.brand_name'`, …, `'NDC': 'package_ndc'`) into
  `results[0]`, keeps element 0 when the value found is a list, and stores the
  string `"Unknown"` for a field whose walk raises `KeyError` or `IndexError`.
  A document without `results` gives the empty mapping.
- The drug-name rule (line 67): the name looked up is `user_query.split()[0]`,
  the first whitespace-delimited token of the query, reached once
  `if user_query:` (line 11) has let the query through.

Files:

- `json.dfy`, module `JsonValue`: decoded JSON values, the Python exceptions
  `KeyError`, `IndexError`, `TypeError`, and the two subscripts the extractor
  applies: `v[key]` with a string key (`Subscript`) and `v[0]` (`First`).
- `text_split.dfy`, module `TextSplit`: `s.split(sep)` (`SplitOn`, with its
  inverse `JoinWith`) and `s.split()` (`Words`, over Python's whitespace
  characters), with round-trip and soundness lemmas.
- `label_extraction.dfy`, module `LabelExtraction`: the catalogue verbatim
  (including the capitalised `'Pregnancy'` key), the specification functions
  `Walk`, `Resolve`, `Stored`, `Fill`, `Extract`, the imperative
  implementation (`WalkPath`, `ResolveField`, `FillFields`, `ExtractDrugInfo`:
  the source's two nested loops, building the mapping in place), and the
  properties of the extractor.
- `drug_name.dfy`, module `DrugName`: `FirstWord` (`split()[0]`), its
  characterisation, and the dispatch of a submitted query.

Exceptions are values: a path walk ends in `Ok(value)` or `Err(e)` with the
exception `e` Python would raise. `Stored` is the `try`/`except (KeyError,
IndexError)` around each field: those two become the sentinel
`Str("Unknown")`, exactly the string Python stores, while `TypeError` (a
string key applied to a string, list, number, boolean or null) is not caught
and escapes the whole extraction as `Escaped(TypeError)`.

Consequences of the code that a reader might not expect:

- Only `KeyError` and `IndexError` are caught. Stepping by a key into a
  string, a list, a number, a boolean or null raises `TypeError`, so it
  escapes `extract_drug_info` and no mapping is returned (`ExtractNotObject`,
  `ExtractRaised`).
- A field's value is whatever JSON value its path reaches (an object, a
  number, element 0 of a list), so the mapping's values are `Json`.
- `results[0]` on an object raises `KeyError` and on an empty list or string
  `IndexError` (every field `"Unknown"`); on a number, boolean or null it
  raises `TypeError`, which escapes (`ExtractNoFirstRecord`).

## Model

| member | source | states |
|---|---|---|
| JsonValue.Subscript | streamlit_app.py:57 | `v[key]` succeeds exactly on an object holding the key and yields its value; otherwise KeyError on an object, TypeError on anything else, never IndexError |
| JsonValue.First | streamlit_app.py:55-58 | `v[0]` succeeds exactly on a non-empty list (element 0) or string (first character); IndexError exactly for empty lists and strings, KeyError exactly for objects, TypeError for scalars |
| TextSplit.SplitOn | streamlit_app.py:54 | `path.split('.')` always yields at least one piece; its pieces are dot-free (`SplitFreeOf`), a single piece when the path has no dot (`SplitNoSep`), and it is inverted by joining with the dot (`JoinSplit`, `SplitJoin`) |
| TextSplit.SplitFreeOf | streamlit_app.py:54 | no piece of `path.split('.')` contains a dot |
| TextSplit.JoinSplit | streamlit_app.py:54 | joining the pieces of `s.split(sep)` with `sep` gives back `s` |
| TextSplit.SplitJoin | streamlit_app.py:54 | splitting a join of separator-free pieces gives back the pieces |
| TextSplit.Words | streamlit_app.py:67 | `s.split()` has no more tokens than characters, each non-empty; whitespace-free and covering exactly the non-whitespace characters (`WordsSound`), empty exactly for all-whitespace input (`WordsEmptyIff`), the first token being the maximal run after the leading whitespace (`WordsFirst`, `WordsHead`) |
| TextSplit.WordsFirst | streamlit_app.py:67 | for input that is not all whitespace, the leading whitespace is followed by a non-empty whitespace-free run that ends at the end of the input or at whitespace (so it is maximal), and `split()` is that run followed by the split of the remainder |
| TextSplit.WordsHead | streamlit_app.py:67 | for input that is not all whitespace, the first token of `split()` sits in the input right after the leading whitespace and is followed by whitespace or the end of the input |
| TextSplit.WordsSound | streamlit_app.py:67 | every token of `s.split()` is non-empty and whitespace-free, and the tokens concatenated are exactly the non-whitespace characters of `s` in order |
| TextSplit.WordsEmptyIff | streamlit_app.py:67 | `s.split()` has no token exactly when `s` is all whitespace |
| TextSplit.WordsJoin | streamlit_app.py:67 | tokens joined by single spaces split back into the same tokens |
| LabelExtraction.CatalogueShape | streamlit_app.py:27-49 | the catalogue has 21 entries and no display name occurs twice |
| LabelExtraction.CatalogueNameCount | streamlit_app.py:27-49 | there are exactly 21 distinct display names |
| LabelExtraction.CataloguePath | streamlit_app.py:28-29 | the brand-name and generic-name paths split into two keys, `openfda` then `brand_name` or `generic_name` |
| LabelExtraction.Walk | streamlit_app.py:56-57 | a key-by-key walk can raise KeyError or TypeError but never IndexError |
| LabelExtraction.Resolve | streamlit_app.py:54-58 | one field's `try` body ends in IndexError exactly when `results[0]` raises IndexError or the path reaches an empty list, and in KeyError exactly when `results[0]` or some step of the path raises KeyError; with `Stored`, `ExtractFound` and `ExtractMissingKey` give its values |
| LabelExtraction.WalkAppend | streamlit_app.py:56-57 | walking `p + q` is walking `p`, then `q` from where `p` ended; an exception in `p` ends the walk |
| LabelExtraction.WalkStopsAt | streamlit_app.py:56-57 | a walk that reaches step `i` whose subscript raises ends with exactly that exception |
| LabelExtraction.WalkFailure | streamlit_app.py:56-57 | conversely, a walk that raises does so at some reached step, with that step's subscript exception |
| LabelExtraction.WalkNest | streamlit_app.py:56-57 | walking a path through a record built along that path finds the value placed at its end |
| LabelExtraction.Stored | streamlit_app.py:58-60 | a field keeps its value, becomes `"Unknown"` exactly on KeyError or IndexError, and TypeError passes through uncaught |
| LabelExtraction.Fill | streamlit_app.py:52-60 | the field loop only ever lets TypeError escape and never loses an entry already stored; `FillKeys`, `FillKeeps`, `FillValue` and `FillRaised` give its keys, its values and when it raises |
| LabelExtraction.Extract | streamlit_app.py:24-64 | a document without `results` gives the empty mapping, and an escaping exception needs `results` and is TypeError; `ExtractKeys`, `ExtractField` and `ExtractRaised` give the full result |
| LabelExtraction.WalkPath | streamlit_app.py:56-57 | the loop reassigning the current value per path segment returns exactly the walk's outcome |
| LabelExtraction.ResolveField | streamlit_app.py:54-58 | one field's `try` body (split, `results[0]`, walk, element 0 of a list) returns exactly the resolved outcome |
| LabelExtraction.FillFields | streamlit_app.py:52-60 | the field loop, filling the mapping in place, returns exactly the specified fold over the catalogue, stopping at the first escaping exception |
| LabelExtraction.ExtractDrugInfo | streamlit_app.py:24-64 | the extractor returns exactly the specified extraction of the document |
| LabelExtraction.FillKeys | streamlit_app.py:52-60 | a completed field loop has as keys the entries stored before plus every remaining display name |
| LabelExtraction.FillKeeps | streamlit_app.py:52-60 | an entry that no later catalogue entry names survives the loop unchanged |
| LabelExtraction.FillValue | streamlit_app.py:52-60 | with distinct names, each catalogue entry's key holds what its own path resolves to, or the sentinel |
| LabelExtraction.FillRaised | streamlit_app.py:52-60 | the loop raises exactly when some remaining entry's resolution raises TypeError, and then raises TypeError |
| LabelExtraction.ExtractWithoutResults | streamlit_app.py:63-64 | a document without `results` gives the empty mapping |
| LabelExtraction.ExtractKeys | streamlit_app.py:27-62 | with `results` present, a completed extraction has exactly the 21 catalogue display names as keys |
| LabelExtraction.ExtractField | streamlit_app.py:52-60 | each field holds the resolution of its own path (value or sentinel) and depends on no other field |
| LabelExtraction.ExtractRaised | streamlit_app.py:57-59 | an exception escapes exactly when `results` is present and some catalogue path's resolution raises TypeError, and it is TypeError |
| LabelExtraction.ExtractFound | streamlit_app.py:56-60 | a path reaching `v` stores `v` when it is not a list, element 0 of a non-empty list, and `"Unknown"` for an empty list |
| LabelExtraction.ExtractMissingKey | streamlit_app.py:57-60 | a key missing at any step of a field's path stores `"Unknown"` for that field |
| LabelExtraction.ExtractNotObject | streamlit_app.py:57-59 | stepping by a key into a value that is not an object makes the whole extraction raise TypeError |
| LabelExtraction.ExtractNoFirstRecord | streamlit_app.py:55-60 | when `results[0]` raises KeyError or IndexError every field is `"Unknown"`; when it raises TypeError that escapes |
| LabelExtraction.ExtractEmptyResults | streamlit_app.py:55-60 | an empty `results` list gives all 21 fields the sentinel `"Unknown"` |
| DrugName.FirstWordSpec | streamlit_app.py:67 | `split()[0]` raises IndexError exactly for an all-whitespace query; otherwise it is the first maximal whitespace-free run after the leading whitespace |
| DrugName.WhitespaceQueryCrashes | streamlit_app.py:11 | a query of one space passes `if user_query:` and crashes with IndexError |
| DrugName.FirstWord | streamlit_app.py:67 | `split()[0]` raises exactly on an all-whitespace query, and then IndexError; otherwise it yields a non-empty whitespace-free token, located by `FirstWordSpec` |
| DrugName.DispatchAsWritten | streamlit_app.py:11-67 | a query crashes exactly when it is non-empty and all whitespace, always with IndexError; a lookup is for a non-empty whitespace-free name (`WhitespaceQueryCrashes` gives the input) |
| DrugName.Dispatch | streamlit_app.py:11-67 | the corrected dispatch never crashes, stays idle exactly on an all-whitespace query, and looks up a non-empty whitespace-free name; `DispatchSafe` relates it to the code as written |
| DrugName.DispatchSafe | streamlit_app.py:67 | the corrected dispatch never crashes, waits exactly on an all-whitespace query, and agrees with the code as written wherever that does not crash |

## Findings

| source | as written | input that shows it | evidently intended | confidence | as-written member | corrected member |
|---|---|---|---|---|---|---|
| streamlit_app.py:11 | `if user_query:` only rejects the empty string, then `user_query.split()[0]` (line 67) is evaluated | the query `" "` (whitespace only): `split()` is empty and `[0]` raises an uncaught IndexError | a query without a token is treated like no input: no lookup, no exception | medium, not executed | DrugName.DispatchAsWritten (exhibited by DrugName.WhitespaceQueryCrashes) | DrugName.Dispatch (proved by DrugName.DispatchSafe) |

## Left out

- The Streamlit interface (`st.text_input`, `st.write`, the rendering branches, lines 9, 89, 91): presentation only.
- Loading the API key from Streamlit secrets (line 6): configuration I/O.
- `query_openfda` (lines 15-21) and the truthiness test on its result (line 69): a network call whose outcome depends on the remote registry; the model starts from the decoded document it returns.
- Prompt assembly and the OpenAI completion call (lines 73-87): a foreign, non-deterministic text-generation service.
- The keyword relevance filter and the token-scanning name locator of other variants of the application: their code is not part of this model.
- Insertion order of the `drug_info` dict: only visible when the dict is rendered into the prompt, which is left out; the model's mapping is an unordered `map`.
- The top-level document is an object (`map<string, Json>`), as the endpoint returns; Python's `in` and subscript on a top-level list or string are not modelled.
- JSON numbers are integers; floating point is not modelled (the extractor never inspects a number, only its kind).
- LabelExtraction.CataloguePath: covers the two dotted paths only; that the other 19 paths split into one key each follows from `SplitNoSep` but is not stated per entry, because evaluating the split on those string literals is too costly for the verifier.
