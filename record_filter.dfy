/** `filteredData`: the records the table and the map show for the text typed into the search
    box and the status picked in the status selector. */
module RecordFilter {
  import opened Wrappers
  import opened Records
  import opened JsStrings

  /** `query.trim().toLowerCase()`: the text that is searched for. It is empty exactly when
      the typed query is blank. */
  function Needle(query: string): (q: string)
    ensures |q| <= |query|
    ensures q == "" <==> forall i :: 0 <= i < |query| ==> IsJsWhitespace(query[i])
  {
    ToLower(Trim(query))
  }

  /** JavaScript truthiness of an optional string field: present and not empty. */
  predicate IsTruthy(field: Option<string>) {
    field.Some? && field.value != ""
  }

  /** `fields.filter(Boolean)`: the values of the truthy fields, in order. */
  function TruthyValues(fields: seq<Option<string>>): (r: seq<string>)
    ensures |r| <= |fields|
    ensures forall i :: 0 <= i < |r| ==> r[i] != "" && Some(r[i]) in fields
  {
    if fields == [] then []
    else (if IsTruthy(fields[0]) then [fields[0].value] else []) + TruthyValues(fields[1..])
  }

  /** The text a record is searched in: its address and status, lower-cased, joined by one space. */
  function Haystack(item: Complaint): string {
    ToLower(Join(TruthyValues([item.address, Some(item.status)]), " "))
  }

  /** `!status || item.status === status`: no status picked, or the record has exactly that one. */
  predicate MatchesStatus(status: Option<string>, item: Complaint) {
    !IsTruthy(status) || item.status == status.value
  }

  /** The callback handed to `data.filter` (lines 76-86 of the page). The source normalises the
      query once, before filtering, so the callback takes the normalised query `q` rather than
      the typed one; `Passes` below is the same test stated for the typed query. */
  predicate Keep(q: string, status: Option<string>, item: Complaint) {
    var matchesStatus := MatchesStatus(status, item);
    if q == "" then matchesStatus
    else matchesStatus && Includes(Haystack(item), q)
  }

  /** The `data.filter(...)` call alone, over the already normalised query `q`. */
  function Select(data: seq<Complaint>, q: string, status: Option<string>): (r: seq<Complaint>)
    ensures |r| <= |data|
    ensures forall i :: 0 <= i < |r| ==> r[i] in data && Keep(q, status, r[i])
  {
    if data == [] then []
    else (if Keep(q, status, data[0]) then [data[0]] else []) + Select(data[1..], q, status)
  }

  /** The whole `filteredData` memo: normalise the typed `query` (line 75), then filter. */
  function FilteredData(data: seq<Complaint>, query: string, status: Option<string>): (r: seq<Complaint>)
    ensures |r| <= |data|
    ensures forall i :: 0 <= i < |r| ==> r[i] in data && Passes(query, status, r[i])
  {
    Select(data, Needle(query), status)
  }

  /** The record passes the status stage and the text stage of the filter for the typed query:
      the callback's test with the normalisation of line 75 applied first. The lemmas below
      speak of this form, since callers of the page supply the typed query. */
  predicate Passes(query: string, status: Option<string>, item: Complaint) {
    Keep(Needle(query), status, item)
  }

  /** `a` is `b` with some elements left out and the rest in their original order. */
  ghost predicate IsSubsequence<T>(a: seq<T>, b: seq<T>) {
    if a == [] then true
    else if b == [] then false
    else (a[0] == b[0] && IsSubsequence(a[1..], b[1..])) || IsSubsequence(a, b[1..])
  }

  lemma {:induction false} SubsequenceLength<T>(a: seq<T>, b: seq<T>)
    requires IsSubsequence(a, b)
    ensures |a| <= |b|
  {
    if a != [] {
      if a[0] == b[0] && IsSubsequence(a[1..], b[1..]) {
        SubsequenceLength(a[1..], b[1..]);
      } else {
        SubsequenceLength(a, b[1..]);
      }
    }
  }

  /** The haystack is the non-empty address, then the non-empty status, with a single space
      between them when both are there, lower-cased. */
  lemma HaystackShape(item: Complaint)
    ensures Haystack(item) == ToLower(
      if IsTruthy(item.address) && item.status != "" then item.address.value + " " + item.status
      else if IsTruthy(item.address) then item.address.value
      else item.status)
  {
    var fields := [item.address, Some(item.status)];
    var tail := if item.status != "" then [item.status] else [];
    assert fields[1..] == [Some(item.status)];
    assert fields[1..][1..] == [];
    assert TruthyValues(fields[1..]) == tail + [];
    var parts := (if IsTruthy(item.address) then [item.address.value] else []) + tail;
    assert TruthyValues(fields) == parts;
    if IsTruthy(item.address) && item.status != "" {
      assert parts == [item.address.value, item.status] && parts[1..] == [item.status];
      assert Join(parts, " ") == item.address.value + " " + Join([item.status], " ");
    }
  }

  /** Only the address and the status take part in matching: records that agree on those two
      (whatever their id, category, description, date, coordinates or photo) pass or fail together. */
  lemma MatchingIgnoresOtherFields(query: string, status: Option<string>, a: Complaint, b: Complaint)
    requires a.address == b.address && a.status == b.status
    ensures Passes(query, status, a) == Passes(query, status, b)
  {
  }

  /** The search box is case-insensitive: queries that lower-case to the same text show the
      same records. */
  lemma FilteredIgnoresQueryCase(data: seq<Complaint>, query1: string, query2: string, status: Option<string>)
    requires ToLower(query1) == ToLower(query2)
    ensures FilteredData(data, query1, status) == FilteredData(data, query2, status)
  {
    TrimToLower(query1);
    TrimToLower(query2);
    assert Needle(query1) == Needle(query2);
  }

  /** A record passes exactly when the status stage holds and the normalised query is empty or
      occurs in the haystack. */
  lemma PassesIff(query: string, status: Option<string>, item: Complaint)
    ensures Passes(query, status, item) <==>
      && (!IsTruthy(status) || item.status == status.value)
      && (Needle(query) == "" || IsSubstring(Needle(query), Haystack(item)))
  {
    IncludesIff(Haystack(item), Needle(query));
  }

  /** The result is the input with some records left out and the rest in their original order. */
  lemma {:induction false} FilteredIsSubsequence(data: seq<Complaint>, query: string, status: Option<string>)
    ensures IsSubsequence(FilteredData(data, query, status), data)
  {
    if data != [] {
      var rest := FilteredData(data[1..], query, status);
      FilteredIsSubsequence(data[1..], query, status);
      if Passes(query, status, data[0]) {
        assert FilteredData(data, query, status) == [data[0]] + rest;
        assert ([data[0]] + rest)[1..] == rest;
      } else {
        assert FilteredData(data, query, status) == rest;
        if rest != [] {
          assert IsSubsequence(rest, data[1..]);
        }
      }
    }
  }

  /** "Показано: n / total": the table never shows more records than the dataset holds. */
  lemma FilteredLength(data: seq<Complaint>, query: string, status: Option<string>)
    ensures |FilteredData(data, query, status)| <= |data|
  {
    // The bound is already part of the contract of `FilteredData`; this lemma gives the
    // displayed count its own name. It also follows from the result being a subsequence.
    FilteredIsSubsequence(data, query, status);
    SubsequenceLength(FilteredData(data, query, status), data);
  }

  /** Every occurrence of a passing record is kept and no failing record is: the result holds each
      record as often as the input does if it passes, and not at all otherwise. */
  lemma {:induction false} FilteredMultiplicity(data: seq<Complaint>, query: string, status: Option<string>, x: Complaint)
    ensures multiset(FilteredData(data, query, status))[x] ==
      if Passes(query, status, x) then multiset(data)[x] else 0
  {
    if data != [] {
      var rest := FilteredData(data[1..], query, status);
      FilteredMultiplicity(data[1..], query, status, x);
      var head := if Passes(query, status, data[0]) then [data[0]] else [];
      assert FilteredData(data, query, status) == head + rest;
      assert multiset(head + rest) == multiset(head) + multiset(rest);
      assert data == [data[0]] + data[1..];
      assert multiset(data) == multiset([data[0]]) + multiset(data[1..]);
    }
  }

  /** Soundness and completeness: a record is shown exactly when it is in the dataset and passes. */
  lemma FilteredMembership(data: seq<Complaint>, query: string, status: Option<string>, x: Complaint)
    ensures x in FilteredData(data, query, status) <==> x in data && Passes(query, status, x)
  {
    FilteredMultiplicity(data, query, status, x);
  }

  /** Filtering a concatenation filters each part. */
  lemma {:induction false} FilteredConcat(a: seq<Complaint>, b: seq<Complaint>, query: string, status: Option<string>)
    ensures FilteredData(a + b, query, status) == FilteredData(a, query, status) + FilteredData(b, query, status)
  {
    if a != [] {
      assert (a + b)[1..] == a[1..] + b;
      FilteredConcat(a[1..], b, query, status);
    } else {
      assert a + b == b;
    }
  }

  /** When every record passes, the result is the dataset itself, in content and in order. */
  lemma {:induction false} FilteredAllPass(data: seq<Complaint>, query: string, status: Option<string>)
    requires forall i :: 0 <= i < |data| ==> Passes(query, status, data[i])
    ensures FilteredData(data, query, status) == data
  {
    if data != [] {
      FilteredAllPass(data[1..], query, status);
    }
  }

  /** With no status picked and a blank query, the table shows the whole dataset unchanged. */
  lemma FilteredBlankQuery(data: seq<Complaint>, query: string, status: Option<string>)
    requires !IsTruthy(status)
    requires forall i :: 0 <= i < |query| ==> IsJsWhitespace(query[i])
    ensures FilteredData(data, query, status) == data
  {
    FilteredAllPass(data, query, status);
  }

  /** Filtering the filtered records again with the same query and status changes nothing. */
  lemma FilteredIdempotent(data: seq<Complaint>, query: string, status: Option<string>)
    ensures FilteredData(FilteredData(data, query, status), query, status) == FilteredData(data, query, status)
  {
    var r := FilteredData(data, query, status);
    forall i | 0 <= i < |r|
      ensures Passes(query, status, r[i])
    {
      FilteredMembership(data, query, status, r[i]);
    }
    FilteredAllPass(r, query, status);
  }
}
