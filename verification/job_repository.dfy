/** `JobExecutionRepository`: the six queries over the `job_details`
    table, as filter, sort and count functions over an in-memory table (a
    sequence of records). The derived-query names and the JPQL strings fix
    which rows match and how they are ordered. */
module JobExecutionRepository {
  import opened Wrappers
  import opened JavaLang
  import opened JobExecution

  type Table = seq<Job>

  // ---------------------------------------------------------------------
  // Filtering and ordering
  // ---------------------------------------------------------------------

  /** The rows satisfying `p`, in table order, each as often as it occurs. */
  function Filter(table: Table, p: Job -> bool): (r: Table)
    ensures |r| <= |table|
    ensures forall i :: 0 <= i < |r| ==> p(r[i])
    ensures forall x :: multiset(r)[x] == if p(x) then multiset(table)[x] else 0
    decreases |table|
  {
    if table == [] then []
    else
      assert table == [table[0]] + table[1..];
      (if p(table[0]) then [table[0]] else []) + Filter(table[1..], p)
  }

  /** Filtering a non-empty table keeps its first row or not, then filters the rest. */
  lemma {:induction false} FilterStep(table: Table, p: Job -> bool)
    requires table != []
    ensures |Filter(table, p)| == (if p(table[0]) then 1 else 0) + |Filter(table[1..], p)|
  {
  }

  /** The ordering column of every ordered query. */
  function CreatedAt(j: Job): int {
    j.createTs
  }

  /** The keys never increase along the list. */
  ghost predicate Descending<T>(s: seq<T>, key: T -> int) {
    forall i, j :: 0 <= i < j < |s| ==> key(s[i]) >= key(s[j])
  }

  /** The head of a descending list has the greatest key. */
  lemma {:induction false} HeadIsGreatest<T>(s: seq<T>, key: T -> int, x: T)
    requires Descending(s, key) && x in s
    ensures key(s[0]) >= key(x)
  {
    var m :| 0 <= m < |s| && s[m] == x;
    if m > 0 {
      assert key(s[0]) >= key(s[m]);
    }
  }

  /** `ORDER BY createTs DESC`: creation times never increase along the list. */
  ghost predicate NewestFirst(s: Table) {
    Descending(s, CreatedAt)
  }

  /** Prepending a key no smaller than the head keeps a list descending. */
  lemma {:induction false} ConsDescending<T>(x: T, s: seq<T>, key: T -> int)
    requires Descending(s, key)
    requires s == [] || key(x) >= key(s[0])
    ensures Descending([x] + s, key)
  {
    var r := [x] + s;
    forall i, j | 0 <= i < j < |r| ensures key(r[i]) >= key(r[j]) {
      assert r[j] == s[j - 1];
      if i == 0 {
        assert key(s[0]) >= key(s[j - 1]);
      } else {
        assert r[i] == s[i - 1];
      }
    }
  }

  /** Puts `x` into a descending list, before the first smaller key. */
  function Insert<T>(x: T, s: seq<T>, key: T -> int): (r: seq<T>)
    requires Descending(s, key)
    ensures Descending(r, key)
    ensures multiset(r) == multiset(s) + multiset{x}
    ensures |r| == |s| + 1 && (r[0] == x || (s != [] && r[0] == s[0]))
  {
    if s == [] || key(x) >= key(s[0]) then
      ConsDescending(x, s, key);
      [x] + s
    else
      assert s == [s[0]] + s[1..];
      var rest := Insert(x, s[1..], key);
      ConsDescending(s[0], rest, key);
      [s[0]] + rest
  }

  /** The elements of `s`, in descending key order. Rows created at the same
      instant may come in any order in the database; here they keep an order
      of their own. */
  function SortDescending<T>(s: seq<T>, key: T -> int): (r: seq<T>)
    ensures Descending(r, key)
    ensures multiset(r) == multiset(s)
    decreases |s|
  {
    if s == [] then []
    else
      assert s == [s[0]] + s[1..];
      Insert(s[0], SortDescending(s[1..], key), key)
  }

  /** The rows of `s`, newest first. */
  function SortNewestFirst(s: Table): (r: Table)
    ensures NewestFirst(r)
    ensures multiset(r) == multiset(s)
  {
    SortDescending(s, CreatedAt)
  }

  /** A query answer: exactly the matching rows (with multiplicity), newest first. */
  ghost predicate Answers(r: Table, table: Table, p: Job -> bool) {
    && NewestFirst(r)
    && forall x :: multiset(r)[x] == if p(x) then multiset(table)[x] else 0
  }

  function Named(name: string): Job -> bool {
    (j: Job) => j.jobName == Some(name)
  }

  function InStatus(status: JobStatus): Job -> bool {
    (j: Job) => j.status == Some(status)
  }

  /** `je.jobName = :jobName AND je.createTs >= :startDate`: the bound is inclusive. */
  function NamedSince(name: string, startDate: Time): Job -> bool {
    (j: Job) => j.jobName == Some(name) && j.createTs >= startDate
  }

  /** The condition of the count query: name, status and the inclusive bound. */
  function NamedInStatusSince(name: string, status: JobStatus, startDate: Time): Job -> bool {
    (j: Job) => j.jobName == Some(name) && j.status == Some(status) && j.createTs >= startDate
  }

  // ---------------------------------------------------------------------
  // The six queries
  // ---------------------------------------------------------------------

  /** `findByJobNameOrderByCreateTsDesc(jobName)`. */
  function FindByJobNameOrderByCreateTsDesc(table: Table, jobName: string): (r: Table)
    ensures NewestFirst(r)
    ensures forall x :: multiset(r)[x] == if x.jobName == Some(jobName) then multiset(table)[x] else 0
  {
    SortNewestFirst(Filter(table, Named(jobName)))
  }

  /** `findByStatusOrderByCreateTsDesc(status)`. */
  function FindByStatusOrderByCreateTsDesc(table: Table, status: JobStatus): (r: Table)
    ensures NewestFirst(r)
    ensures forall x :: multiset(r)[x] == if x.status == Some(status) then multiset(table)[x] else 0
  {
    SortNewestFirst(Filter(table, InStatus(status)))
  }

  /** `findFirstByJobNameOrderByCreateTsDesc(jobName)`: empty iff no row has
      that name; otherwise a row of that name created no earlier than any
      other row of that name. */
  function FindFirstByJobNameOrderByCreateTsDesc(table: Table, jobName: string): (r: Option<Job>)
    ensures r.None? <==> forall i :: 0 <= i < |table| ==> table[i].jobName != Some(jobName)
    ensures r.Some? ==> r.value in table && r.value.jobName == Some(jobName)
    ensures r.Some? ==> forall i :: 0 <= i < |table| && table[i].jobName == Some(jobName) ==>
              table[i].createTs <= r.value.createTs
  {
    var all := FindByJobNameOrderByCreateTsDesc(table, jobName);
    if all == [] then
      assert forall i :: 0 <= i < |table| ==> table[i].jobName != Some(jobName) by {
        forall i | 0 <= i < |table| ensures table[i].jobName != Some(jobName) {
          assert multiset(all)[table[i]] == 0;
        }
      }
      None
    else
      assert all[0] in multiset(all);
      forall i | 0 <= i < |table| && table[i].jobName == Some(jobName)
        ensures table[i].createTs <= all[0].createTs
      {
        assert table[i] in multiset(table);
        assert table[i] in multiset(all);
        HeadIsGreatest(all, CreatedAt, table[i]);
      }
      Some(all[0])
  }

  /** `findByJobNameAndCreateTsAfter(jobName, startDate)`: despite its name,
      rows created exactly at `startDate` are included. */
  function FindByJobNameAndCreateTsAfter(table: Table, jobName: string, startDate: Time): (r: Table)
    ensures Answers(r, table, NamedSince(jobName, startDate))
  {
    SortNewestFirst(Filter(table, NamedSince(jobName, startDate)))
  }

  /** `countByJobNameAndStatusAndCreateTsAfter(jobName, status, startDate)`,
      counted row by row. */
  method CountByJobNameAndStatusAndCreateTsAfter(table: Table, jobName: string, status: JobStatus, startDate: Time)
    returns (count: nat)
    ensures count == |Filter(table, NamedInStatusSince(jobName, status, startDate))|
  {
    var p := NamedInStatusSince(jobName, status, startDate);
    count := 0;
    var i := 0;
    while i < |table|
      invariant 0 <= i <= |table|
      invariant count + |Filter(table[i..], p)| == |Filter(table, p)|
    {
      FilterStep(table[i..], p);
      assert table[i..][1..] == table[i + 1..];
      if p(table[i]) {
        count := count + 1;
      }
      i := i + 1;
    }
    assert table[i..] == [];
  }

  /** `findRunningJobs()`: exactly the RUNNING rows. The query has no ORDER
      BY; the model keeps table order. */
  function FindRunningJobs(table: Table): (r: Table)
    ensures forall x :: multiset(r)[x] == if x.status == Some(Running) then multiset(table)[x] else 0
  {
    Filter(table, InStatus(Running))
  }

  // ---------------------------------------------------------------------
  // How the queries relate
  // ---------------------------------------------------------------------

  /** The count query counts exactly those rows of the ranged find query that
      are in the given status. */
  lemma CountIsRangedFindInStatus(table: Table, jobName: string, status: JobStatus, startDate: Time)
    ensures |Filter(table, NamedInStatusSince(jobName, status, startDate))|
         == |Filter(FindByJobNameAndCreateTsAfter(table, jobName, startDate), InStatus(status))|
  {
    var a := Filter(table, NamedInStatusSince(jobName, status, startDate));
    var b := Filter(FindByJobNameAndCreateTsAfter(table, jobName, startDate), InStatus(status));
    assert multiset(a) == multiset(b);
    assert |a| == |multiset(a)| && |b| == |multiset(b)|;
  }

  /** The first row by name is the head of the list by name. */
  lemma FirstIsHeadOfList(table: Table, jobName: string)
    requires FindByJobNameOrderByCreateTsDesc(table, jobName) != []
    ensures FindFirstByJobNameOrderByCreateTsDesc(table, jobName) == Some(FindByJobNameOrderByCreateTsDesc(table, jobName)[0])
  {
  }

  /** The rows since a date are the rows by name, minus the older ones. */
  lemma RangedFindWithinByName(table: Table, jobName: string, startDate: Time)
    ensures forall x :: multiset(FindByJobNameAndCreateTsAfter(table, jobName, startDate))[x]
                     == if x.createTs >= startDate then multiset(FindByJobNameOrderByCreateTsDesc(table, jobName))[x] else 0
  {
  }
}
