/**
 The two tables. HistoryTable.render_jobs: accounting may hold one display id twice, so row keys are
 numbered until they are free. ActiveTable.render_rows: a key met again ends the render. A Python
 dictionary is its keys in insertion order with the map they index.
 */
module Tables {
  import opened Text
  import opened Jobs
  import opened Arrays
  import opened RowKeys

  /** The n-th key tried for a display id. */
  function Candidate(id: string, n: nat): string
    requires n >= 1
  {
    if n == 1 then id else id + "#" + NatText(n)
  }

  lemma CandidatesDiffer(id: string, m: nat, n: nat)
    requires 1 <= m < n
    ensures Candidate(id, m) != Candidate(id, n)
  {
    var a, b := Candidate(id, m), Candidate(id, n);
    if a == b && m > 1 {
      assert a[|id| + 1..] == NatText(m) && b[|id| + 1..] == NatText(n);
      NatTextInjective(m, n);
    }
  }

  /** All keys tried before the n-th are taken. */
  ghost predicate TriedAll(taken: seq<string>, id: string, n: nat) {
    forall m | 1 <= m < n :: Candidate(id, m) in taken
  }

  lemma Elsewhere(taken: seq<string>, i: nat, key: string)
    requires i < |taken| && key in taken && key != taken[i]
    ensures key in taken[..i] + taken[i + 1..]
  {
  }

  lemma OneFewer(taken: seq<string>, id: string, n: nat) returns (i: nat)
    requires n > 1 && TriedAll(taken, id, n)
    ensures i < |taken| && TriedAll(taken[..i] + taken[i + 1..], id, n - 1)
  {
    var last := Candidate(id, n - 1);
    assert last in taken;
    i :| 0 <= i < |taken| && taken[i] == last;
    forall m | 1 <= m < n - 1 ensures Candidate(id, m) in taken[..i] + taken[i + 1..] {
      CandidatesDiffer(id, m, n - 1);
      Elsewhere(taken, i, Candidate(id, m));
    }
  }

  /** Pigeonhole: the tried keys are distinct, so no more of them can be taken than keys exist. */
  lemma {:induction false} TriesBounded(taken: seq<string>, id: string, n: nat)
    requires n >= 1 && TriedAll(taken, id, n)
    ensures n <= |taken| + 1
    decreases n
  {
    if n > 1 {
      var i := OneFewer(taken, id, n);
      TriesBounded(taken[..i] + taken[i + 1..], id, n - 1);
    }
  }

  /** key is the first free candidate after `taken`, found within |taken| + 1 tries. */
  ghost predicate FirstFree(taken: seq<string>, id: string, key: string) {
    key !in taken &&
    exists n :: 1 <= n <= |taken| + 1 && key == Candidate(id, n) && TriedAll(taken, id, n)
  }

  /** Every row's key is the first candidate that the earlier keys leave free. */
  ghost predicate KeysOf(keys: seq<string>, ids: seq<string>) {
    |keys| == |ids| &&
    (keys != [] ==>
      var n := |keys| - 1;
      KeysOf(keys[..n], ids[..n]) && FirstFree(keys[..n], ids[n], keys[n]))
  }

  lemma AppendKey(keys: seq<string>, ids: seq<string>, id: string, key: string)
    requires KeysOf(keys, ids) && FirstFree(keys, id, key)
    ensures KeysOf(keys + [key], ids + [id])
  {
  }

  function DisplayIds(jobs: seq<JobSummary>): seq<string> {
    seq(|jobs|, i requires 0 <= i < |jobs| => jobs[i].DisplayId())
  }

  lemma FirstFreeUnique(taken: seq<string>, id: string, a: string, b: string)
    requires FirstFree(taken, id, a) && FirstFree(taken, id, b)
    ensures a == b
  {
  }

  /** The keys are determined by the display ids. */
  lemma {:induction false} KeysDetermined(keys: seq<string>, keys': seq<string>, ids: seq<string>)
    requires KeysOf(keys, ids) && KeysOf(keys', ids)
    ensures keys == keys'
  {
    if keys != [] {
      var n := |keys| - 1;
      KeysDetermined(keys[..n], keys'[..n], ids[..n]);
      FirstFreeUnique(keys[..n], ids[n], keys[n], keys'[n]);
      assert keys == keys[..n] + [keys[n]] && keys' == keys'[..n] + [keys'[n]];
    }
  }

  /** The second record of a display id is numbered 2. */
  lemma SecondCopy(keys: seq<string>, id: string)
    requires KeysOf(keys, [id, id])
    ensures keys == [id, id + "#2"]
  {
    var first := keys[..1];
    assert [id, id][..1] == [id] && first[..0] == [] && [id][..0] == [];
    assert KeysOf(first, [id]) && FirstFree([], id, first[0]);
    FirstFreeUnique([], id, first[0], Candidate(id, 1));
    assert first == [id];
    assert FirstFree(first, id, keys[1]);
    CandidatesDiffer(id, 1, 2);
    FirstFreeUnique(first, id, keys[1], Candidate(id, 2));
    assert NatText(2) == Digits(2, 10) == [DigitChar(2)] == "2";
    assert Candidate(id, 2) == id + "#" + "2" == id + "#2";
    assert keys[1] == id + "#2";
    assert keys[0] == first[0] && keys == [keys[0], keys[1]];
  }

  /** They are pairwise distinct, so no row replaces another. */
  lemma {:induction false} KeysDistinct(keys: seq<string>, ids: seq<string>, i: nat, k: nat)
    requires KeysOf(keys, ids) && i < k < |keys|
    ensures keys[i] != keys[k]
  {
    var n := |keys| - 1;
    if k == n {
      assert keys[..n][i] == keys[i];
    } else {
      KeysDistinct(keys[..n], ids[..n], i, k);
    }
  }

  lemma DisplayIdsAppend(jobs: seq<JobSummary>, j: JobSummary)
    ensures DisplayIds(jobs + [j]) == DisplayIds(jobs) + [j.DisplayId()]
  {
  }

  lemma DisplayIdsSnoc(jobs: seq<JobSummary>, i: nat)
    requires i < |jobs|
    ensures DisplayIds(jobs[..i + 1]) == DisplayIds(jobs[..i]) + [jobs[i].DisplayId()]
    ensures jobs[..i + 1] == jobs[..i] + [jobs[i]]
  {
    assert jobs[..i + 1] == jobs[..i] + [jobs[i]];
    DisplayIdsAppend(jobs[..i], jobs[i]);
  }

  ghost predicate Indexes<V>(byKey: map<string, V>, keys: seq<string>) {
    forall k :: k in byKey <==> k in keys
  }

  /** A dictionary's values in insertion order. */
  ghost function ValuesOf<V>(keys: seq<string>, byKey: map<string, V>): seq<V>
    requires Indexes(byKey, keys)
  {
    seq(|keys|, i requires 0 <= i < |keys| => byKey[keys[i]])
  }

  lemma ValuesSnoc<V>(keys: seq<string>, byKey: map<string, V>, key: string, v: V)
    requires Indexes(byKey, keys) && key !in keys
    ensures Indexes(byKey[key := v], keys + [key])
    ensures ValuesOf(keys + [key], byKey[key := v]) == ValuesOf(keys, byKey) + [v]
  {
  }

  class HistoryTable {
    /** jobs_by_key. */
    var keys: seq<string>
    var jobsByKey: map<string, JobSummary>

    constructor ()
      ensures keys == [] && jobsByKey == map[]
    {
      keys, jobsByKey := [], map[];
    }

    /** The dictionary's keys are the listed ones. */
    ghost predicate Valid()
      reads this
    {
      Indexes(jobsByKey, keys)
    }

    ghost function Values(): seq<JobSummary>
      reads this
      requires Valid()
    {
      ValuesOf(keys, jobsByKey)
    }

    /** Loses no job: the dictionary's values in insertion order are exactly the jobs. */
    method RenderJobs(jobs: seq<JobSummary>)
      modifies this
      ensures Valid() && Values() == jobs
      ensures KeysOf(keys, DisplayIds(jobs))
    {
      keys, jobsByKey := [], map[];
      for i := 0 to |jobs|
        invariant Valid() && Values() == jobs[..i]
        invariant KeysOf(keys, DisplayIds(jobs[..i]))
      {
        DisplayIdsSnoc(jobs, i);
        AddRow(jobs[i], DisplayIds(jobs[..i]));
      }
      assert jobs[..|jobs|] == jobs;
    }

    /** The body of the outer loop. */
    method AddRow(j: JobSummary, ghost ids: seq<string>)
      requires Valid() && KeysOf(keys, ids)
      modifies this
      ensures Valid() && Values() == old(Values()) + [j]
      ensures KeysOf(keys, ids + [j.DisplayId()])
    {
      var rowKey := FreeKey(j.DisplayId());
      AppendKey(keys, ids, j.DisplayId(), rowKey);
      ValuesSnoc(keys, jobsByKey, rowKey, j);
      keys, jobsByKey := keys + [rowKey], jobsByKey[rowKey := j];
    }

    /** The renaming loop; it ends within one try more than there are keys. */
    method FreeKey(id: string) returns (rowKey: string)
      requires Valid()
      ensures FirstFree(keys, id, rowKey)
    {
      var n := 1;
      rowKey := id;
      while rowKey in jobsByKey
        invariant 1 <= n <= |keys| + 1 && rowKey == Candidate(id, n) && TriedAll(keys, id, n)
        decreases |keys| + 1 - n
      {
        forall m | 1 <= m < n + 1 ensures Candidate(id, m) in keys {
          assert m < n || m == n;
        }
        TriesBounded(keys, id, n + 1);
        n := n + 1;
        rowKey := id + "#" + NatText(n);
      }
    }
  }

  ghost predicate KeyedRows(byKey: map<string, Row>) {
    forall k | k in byKey :: byKey[k].Key() == k
  }

  lemma ReplacedValues(keys: seq<string>, byKey: map<string, Row>, row: Row)
    requires Indexes(byKey, keys) && KeyedRows(byKey) && row.Key() in keys
    ensures Indexes(byKey[row.Key() := row], keys)
    ensures ValuesOf(keys, byKey[row.Key() := row]) == Replace(ValuesOf(keys, byKey), row)
  {
  }

  lemma TakenIff(keys: seq<string>, byKey: map<string, Row>, key: string)
    requires Indexes(byKey, keys) && KeyedRows(byKey)
    ensures KeyTaken(ValuesOf(keys, byKey), key) <==> key in keys
  {
    var rows := ValuesOf(keys, byKey);
    if key in keys {
      var i :| 0 <= i < |keys| && keys[i] == key;
      assert rows[i].Key() == key;
    }
  }

  class ActiveTable {
    var keys: seq<string>             // the rows the table itself holds
    var rowsByKey: map<string, Row>   // rows_by_key

    constructor ()
      ensures Valid() && Shown() == []
    {
      keys, rowsByKey := [], map[];
    }

    ghost predicate Valid()
      reads this
    {
      Indexes(rowsByKey, keys) && KeyedRows(rowsByKey)
    }

    /** The rows a user can pick, from top to bottom. */
    ghost function Shown(): seq<Row>
      reads this
      requires Valid()
    {
      ValuesOf(keys, rowsByKey)
    }

    /** False when the table refuses a key and raises. */
    method RenderRows(rows: seq<Row>) returns (whole: bool)
      modifies this
      ensures Valid() && Placed(Shown(), whole) == Place(rows)
    {
      keys, rowsByKey := [], map[];
      for i := 0 to |rows|
        invariant Valid() && Place(rows[..i]) == Placed(Shown(), true)
      {
        var row := rows[i];
        assert rows[..i + 1][..i] == rows[..i];
        TakenIff(keys, rowsByKey, row.Key());
        if row.Key() in keys {
          ReplacedValues(keys, rowsByKey, row);
          rowsByKey := rowsByKey[row.Key() := row];
          PlaceStops(rows, i + 1);
          return false;
        }
        ValuesSnoc(keys, rowsByKey, row.Key(), row);
        keys, rowsByKey := keys + [row.Key()], rowsByKey[row.Key() := row];
      }
      assert rows[..|rows|] == rows;
      return true;
    }
  }
}
