/** `stats`: the summary counters above the table, taken over the whole dataset. */
module Stats {
  import opened Wrappers
  import opened Records
  import RecordFilter
  import JsStrings

  /** The four statistic cards: "Всего", "В работе", "Решено", "Отклонено". */
  datatype Counts = Counts(total: nat, inProgress: nat, resolved: nat, rejected: nat)

  /** The number of records whose status is exactly `status`. */
  function CountStatus(data: seq<Complaint>, status: string): (n: nat)
    ensures n <= |data|
  {
    if data == [] then 0
    else (if data[0].status == status then 1 else 0) + CountStatus(data[1..], status)
  }

  /** The number of records whose status is none of the three known ones. */
  function CountUnrecognised(data: seq<Complaint>): (n: nat)
    ensures n <= |data|
  {
    if data == [] then 0
    else (if IsKnownStatus(data[0].status) then 0 else 1) + CountUnrecognised(data[1..])
  }

  /** The loop behind `stats`: `total` is the length of the dataset, and each counter is
      incremented for every record whose status equals its status exactly. Only the dataset is
      an input; the query and the status filter play no part. */
  method ComputeStats(data: seq<Complaint>) returns (counts: Counts)
    ensures counts.total == |data|
    ensures counts.inProgress == CountStatus(data, InProgress)
    ensures counts.resolved == CountStatus(data, Resolved)
    ensures counts.rejected == CountStatus(data, Rejected)
    ensures counts.inProgress + counts.resolved + counts.rejected <= counts.total
  {
    counts := Counts(|data|, 0, 0, 0);
    for i := 0 to |data|
      invariant counts.total == |data|
      invariant counts.inProgress == CountStatus(data[..i], InProgress)
      invariant counts.resolved == CountStatus(data[..i], Resolved)
      invariant counts.rejected == CountStatus(data[..i], Rejected)
    {
      var item := data[i];
      assert data[..i + 1] == data[..i] + [item];
      CountStatusConcat(data[..i], [item], InProgress);
      CountStatusConcat(data[..i], [item], Resolved);
      CountStatusConcat(data[..i], [item], Rejected);
      if item.status == InProgress {
        counts := counts.(inProgress := counts.inProgress + 1);
      }
      if item.status == Resolved {
        counts := counts.(resolved := counts.resolved + 1);
      }
      if item.status == Rejected {
        counts := counts.(rejected := counts.rejected + 1);
      }
    }
    assert data[..|data|] == data;
    CountsPartition(data);
  }

  /** Counting over a concatenation adds the counts of the parts. */
  lemma {:induction false} CountStatusConcat(a: seq<Complaint>, b: seq<Complaint>, status: string)
    ensures CountStatus(a + b, status) == CountStatus(a, status) + CountStatus(b, status)
  {
    if a == [] {
      assert a + b == b;
    } else {
      assert (a + b)[1..] == a[1..] + b;
      CountStatusConcat(a[1..], b, status);
    }
  }

  /** Every record is counted under exactly one of the three statuses or as unrecognised. */
  lemma {:induction false} CountsPartition(data: seq<Complaint>)
    ensures CountStatus(data, InProgress) + CountStatus(data, Resolved) + CountStatus(data, Rejected)
      + CountUnrecognised(data) == |data|
  {
    if data != [] {
      CountsPartition(data[1..]);
    }
  }

  /** The three counters add up to `total` exactly when every status is one of the three. */
  lemma CountsSumToTotalIff(data: seq<Complaint>)
    ensures CountStatus(data, InProgress) + CountStatus(data, Resolved) + CountStatus(data, Rejected) == |data|
      <==> forall i :: 0 <= i < |data| ==> IsKnownStatus(data[i].status)
  {
    CountsPartition(data);
    UnrecognisedZeroIff(data);
  }

  lemma {:induction false} UnrecognisedZeroIff(data: seq<Complaint>)
    ensures CountUnrecognised(data) == 0 <==> forall i :: 0 <= i < |data| ==> IsKnownStatus(data[i].status)
  {
    if data != [] {
      UnrecognisedZeroIff(data[1..]);
      assert forall i :: 1 <= i < |data| ==> data[i] == data[1..][i - 1];
    }
  }

  /** A record with any other status is counted only in `total`: adding it leaves the three
      counters as they were. */
  lemma UnrecognisedCountsOnlyInTotal(data: seq<Complaint>, item: Complaint)
    requires !IsKnownStatus(item.status)
    ensures CountStatus(data + [item], InProgress) == CountStatus(data, InProgress)
    ensures CountStatus(data + [item], Resolved) == CountStatus(data, Resolved)
    ensures CountStatus(data + [item], Rejected) == CountStatus(data, Rejected)
    ensures CountUnrecognised(data + [item]) == CountUnrecognised(data) + 1
  {
    CountStatusConcat(data, [item], InProgress);
    CountStatusConcat(data, [item], Resolved);
    CountStatusConcat(data, [item], Rejected);
    CountUnrecognisedSnoc(data, item);
  }

  lemma {:induction false} CountUnrecognisedSnoc(data: seq<Complaint>, item: Complaint)
    ensures CountUnrecognised(data + [item]) == CountUnrecognised(data) + (if IsKnownStatus(item.status) then 0 else 1)
  {
    if data != [] {
      assert (data + [item])[1..] == data[1..] + [item];
      CountUnrecognisedSnoc(data[1..], item);
    } else {
      assert data + [item] == [item];
    }
  }

  /** A counter equals the number of rows the table shows when that status is picked and the
      search box is blank (empty or all whitespace). */
  lemma {:induction false} CountIsFilteredLength(data: seq<Complaint>, query: string, status: string)
    requires status != ""
    requires forall i :: 0 <= i < |query| ==> JsStrings.IsJsWhitespace(query[i])
    ensures CountStatus(data, status) == |RecordFilter.FilteredData(data, query, Some(status))|
  {
    if data != [] {
      CountIsFilteredLength(data[1..], query, status);
    }
  }
}
