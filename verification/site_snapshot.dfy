/** `SiteSyncService.convertSitesToJson`: the snapshot of the fetched site
    list that the sync job stores in `apiResponse`. It is built by string
    concatenation: `{"sites":[` then one object per site, separated by
    commas, then `]}`. Every object has the same nine members in the same
    order, each value a JSON string; a null value is written as "" and no
    value is escaped. A reader of the snapshot is given here too, and the
    snapshot reads back as the sites' values when no value holds a quote. */
module SiteSnapshot {
  import opened Wrappers
  import opened JavaLang
  import opened SiteDto

  const Quote: char := '"'

  /** The member names, in the order the object lists them. */
  const SnapshotKeys: seq<string> :=
    ["siteId", "siteName", "siteCode", "status", "city", "street", "location", "clusterName", "clusterId"]

  function OrEmpty(x: Option<string>): (r: string)
    ensures x.Some? ==> r == x.value
    ensures x.None? ==> r == ""
  {
    x.GetOr("")
  }

  /** The nine values a site contributes, null written as "". */
  function SnapshotValues(d: Site): (r: seq<string>)
    ensures |r| == |SnapshotKeys|
    ensures r[0] == OrEmpty(SiteId(d)) && r[1] == OrEmpty(SiteName(d)) && r[2] == OrEmpty(SiteCode(d))
    ensures r[3] == OrEmpty(Status(d)) && r[4] == OrEmpty(d.city) && r[5] == OrEmpty(d.street)
    ensures r[6] == OrEmpty(Location(d)) && r[7] == OrEmpty(d.clusterName)
    ensures r[8] == if d.clusterId.Some? then IntToString(d.clusterId.value) else ""
  {
    [OrEmpty(SiteId(d)), OrEmpty(SiteName(d)), OrEmpty(SiteCode(d)), OrEmpty(Status(d)),
     OrEmpty(d.city), OrEmpty(d.street), OrEmpty(Location(d)), OrEmpty(d.clusterName),
     if d.clusterId.Some? then IntToString(d.clusterId.value) else ""]
  }

  /** `"key":"`, what precedes a value. */
  function FieldHead(key: string): string {
    [Quote] + key + [Quote, ':', Quote]
  }

  /** `"key":"value"`, the value copied as it is. */
  function Member(key: string, value: string): string {
    FieldHead(key) + value + [Quote]
  }

  /** The members for `keys` and `values`, separated by commas. */
  function Members(keys: seq<string>, values: seq<string>): string
    requires |keys| == |values| > 0
    decreases |keys|
  {
    Member(keys[0], values[0]) + (if |keys| == 1 then "" else "," + Members(keys[1..], values[1..]))
  }

  /** Value lists with one value per member name. */
  predicate WellShaped(keys: seq<string>, rows: seq<seq<string>>) {
    |keys| > 0 && forall i :: 0 <= i < |rows| ==> |rows[i]| == |keys|
  }

  /** One object, given the member names and their values. */
  function Object(keys: seq<string>, values: seq<string>): (r: string)
    requires |values| == |keys| > 0
    ensures |r| >= 2 && r[0] == '{'
  {
    "{" + Members(keys, values) + "}"
  }

  /** The objects for `rows`, separated by commas (no comma after the last). */
  function Objects(keys: seq<string>, rows: seq<seq<string>>): (r: string)
    requires WellShaped(keys, rows)
    ensures rows != [] ==> |r| > 0
    decreases |rows|
  {
    if rows == [] then ""
    else Object(keys, rows[0]) + (if |rows| == 1 then "" else "," + Objects(keys, rows[1..]))
  }

  /** The values of every site, in list order. */
  function AllValues(sites: seq<Site>): (r: seq<seq<string>>)
    ensures |r| == |sites| && forall i :: 0 <= i < |sites| ==> r[i] == SnapshotValues(sites[i])
    ensures WellShaped(SnapshotKeys, r)
  {
    seq(|sites|, i requires 0 <= i < |sites| => SnapshotValues(sites[i]))
  }

  const SnapshotHead := "{\"sites\":["
  const SnapshotTail := "]}"

  /** `convertSitesToJson(sites)`: the head, the objects, the tail; an empty
      list gives exactly `{"sites":[]}`. */
  function ConvertSitesToJson(sites: seq<Site>): (json: string)
    ensures |json| >= |SnapshotHead| + |SnapshotTail|
    ensures json[..|SnapshotHead|] == SnapshotHead
    ensures json[|json| - |SnapshotTail|..] == SnapshotTail
    ensures sites == [] <==> json == SnapshotHead + SnapshotTail
  {
    var objects := Objects(SnapshotKeys, AllValues(sites));
    Framed(SnapshotHead, objects, SnapshotTail);
    SnapshotHead + objects + SnapshotTail
  }

  lemma Framed(head: string, body: string, tail: string)
    ensures var s := head + body + tail;
            && s[..|head|] == head && s[|s| - |tail|..] == tail
            && (s == head + tail <==> body == [])
  {
    var s := head + body + tail;
    assert s[..|head|] == head;
    assert s[|s| - |tail|..] == tail;
    if s == head + tail {
      assert |body| == 0;
    }
  }

  // ---------------------------------------------------------------------
  // Reading a snapshot back
  // ---------------------------------------------------------------------

  /** What follows `prefix` in `s`, if `s` starts with it. */
  function After(prefix: string, s: string): (r: Option<string>)
    ensures r.Some? ==> s == prefix + r.value
  {
    if |prefix| <= |s| && s[..|prefix|] == prefix then
      assert s == s[..|prefix|] + s[|prefix|..];
      Some(s[|prefix|..])
    else None
  }

  lemma AfterPrefix(prefix: string, rest: string)
    ensures After(prefix, prefix + rest) == Some(rest)
  {
    assert (prefix + rest)[..|prefix|] == prefix;
    assert (prefix + rest)[|prefix|..] == rest;
  }

  /** The text up to the next quote, and what follows that quote. */
  function ReadString(s: string): (r: Option<(string, string)>)
    ensures r.Some? ==> Quote !in r.value.0 && s == r.value.0 + [Quote] + r.value.1
    decreases |s|
  {
    if s == [] then None
    else if s[0] == Quote then
      assert s == [] + [Quote] + s[1..];
      Some(([], s[1..]))
    else
      match ReadString(s[1..])
      case None => None
      case Some(p) =>
        assert s == [s[0]] + s[1..];
        Some(([s[0]] + p.0, p.1))
  }

  lemma {:induction false} ReadStringBack(value: string, rest: string)
    requires Quote !in value
    ensures ReadString(value + [Quote] + rest) == Some((value, rest))
    decreases |value|
  {
    var s := value + [Quote] + rest;
    if value == [] {
      assert s[0] == Quote && s[1..] == rest;
    } else {
      assert s[0] == value[0] && s[1..] == value[1..] + [Quote] + rest;
      ReadStringBack(value[1..], rest);
      assert [value[0]] + value[1..] == value;
    }
  }

  /** Reads the members for `keys`, in order; gives their values and the text after them. */
  function ReadMembers(keys: seq<string>, s: string): Option<(seq<string>, string)>
    requires |keys| > 0
    decreases |keys|
  {
    var r1 :- After(FieldHead(keys[0]), s);
    var p :- ReadString(r1);
    if |keys| == 1 then Some(([p.0], p.1))
    else
      var r2 :- After(",", p.1);
      var q :- ReadMembers(keys[1..], r2);
      Some(([p.0] + q.0, q.1))
  }

  /** What follows the first value of `Members(keys, values) + rest`. */
  function MembersTail(keys: seq<string>, values: seq<string>, rest: string): string
    requires |keys| == |values| > 0
  {
    if |keys| == 1 then rest else "," + (Members(keys[1..], values[1..]) + rest)
  }

  lemma MembersUnfold(keys: seq<string>, values: seq<string>, rest: string)
    requires |keys| == |values| > 0
    ensures Members(keys, values) + rest == FieldHead(keys[0]) + (values[0] + [Quote] + MembersTail(keys, values, rest))
  {
  }

  /** Reading past the first member, whose value holds no quote. */
  lemma ReadFirstMember(keys: seq<string>, value: string, tail: string)
    requires |keys| > 0 && Quote !in value
    ensures ReadMembers(keys, FieldHead(keys[0]) + (value + [Quote] + tail)) ==
      if |keys| == 1 then Some(([value], tail))
      else match After(",", tail)
        case None => None
        case Some(r2) => match ReadMembers(keys[1..], r2)
          case None => None
          case Some(q) => Some(([value] + q.0, q.1))
  {
    AfterPrefix(FieldHead(keys[0]), value + [Quote] + tail);
    ReadStringBack(value, tail);
  }

  lemma ReadLastMember(key: string, value: string, rest: string)
    requires Quote !in value
    ensures ReadMembers([key], Members([key], [value]) + rest) == Some(([value], rest))
  {
    MembersUnfold([key], [value], rest);
    ReadFirstMember([key], value, MembersTail([key], [value], rest));
  }

  /** Reading past a first member, whose value holds no quote, that a comma
      and further members follow. */
  lemma ReadMemberThenMore(keys: seq<string>, value: string, more: string, q: (seq<string>, string))
    requires |keys| > 1 && Quote !in value
    requires ReadMembers(keys[1..], more) == Some(q)
    ensures ReadMembers(keys, FieldHead(keys[0]) + (value + [Quote] + ("," + more))) == Some(([value] + q.0, q.1))
  {
    AfterPrefix(FieldHead(keys[0]), value + [Quote] + ("," + more));
    ReadStringBack(value, "," + more);
    AfterPrefix(",", more);
  }

  /** One member in front of members that read back. */
  lemma ReadMembersStep(keys: seq<string>, values: seq<string>, rest: string)
    requires |keys| == |values| > 1 && Quote !in values[0]
    requires ReadMembers(keys[1..], Members(keys[1..], values[1..]) + rest) == Some((values[1..], rest))
    ensures ReadMembers(keys, Members(keys, values) + rest) == Some((values, rest))
  {
    var more := Members(keys[1..], values[1..]) + rest;
    MembersUnfold(keys, values, rest);
    assert MembersTail(keys, values, rest) == "," + more;
    ReadMemberThenMore(keys, values[0], more, (values[1..], rest));
    assert [values[0]] + values[1..] == values;
  }

  lemma {:induction false} ReadMembersBack(keys: seq<string>, values: seq<string>, rest: string)
    requires |keys| == |values| > 0
    requires forall i :: 0 <= i < |values| ==> Quote !in values[i]
    ensures ReadMembers(keys, Members(keys, values) + rest) == Some((values, rest))
    decreases |keys|
  {
    if |keys| > 1 {
      ReadMembersBack(keys[1..], values[1..], rest);
      ReadMembersStep(keys, values, rest);
    } else {
      assert keys == [keys[0]] && values == [values[0]];
      ReadLastMember(keys[0], values[0], rest);
    }
  }

  /** Reads one object: its values and the text after it. */
  function ReadObject(keys: seq<string>, s: string): Option<(seq<string>, string)>
    requires |keys| > 0
  {
    var r1 :- After("{", s);
    var p :- ReadMembers(keys, r1);
    var r2 :- After("}", p.1);
    Some((p.0, r2))
  }

  /** Reads comma-separated objects until the text after one does not start
      with a comma. */
  function ReadObjects(keys: seq<string>, s: string): Option<(seq<seq<string>>, string)>
    requires |keys| > 0
    decreases |s|
  {
    var p :- ReadObject(keys, s);
    if |p.1| > 0 && p.1[0] == ',' && |p.1| < |s| then
      var q :- ReadObjects(keys, p.1[1..]);
      Some(([p.0] + q.0, q.1))
    else Some(([p.0], p.1))
  }

  /** Reads a snapshot: the values of each object, in order. */
  function ReadSnapshot(json: string): Option<seq<seq<string>>> {
    var body :- After(SnapshotHead, json);
    if body == SnapshotTail then Some([])
    else
      var p :- ReadObjects(SnapshotKeys, body);
      if p.1 == SnapshotTail then Some(p.0) else None
  }

  /** No value holds a quote. */
  ghost predicate QuoteFree(rows: seq<seq<string>>) {
    forall i, j :: 0 <= i < |rows| && 0 <= j < |rows[i]| ==> Quote !in rows[i][j]
  }

  lemma ReadObjectBack(keys: seq<string>, values: seq<string>, rest: string)
    requires |values| == |keys| > 0
    requires forall j :: 0 <= j < |values| ==> Quote !in values[j]
    ensures ReadObject(keys, Object(keys, values) + rest) == Some((values, rest))
  {
    var members := Members(keys, values);
    assert Object(keys, values) + rest == "{" + (members + ("}" + rest));
    AfterPrefix("{", members + ("}" + rest));
    ReadMembersBack(keys, values, "}" + rest);
    AfterPrefix("}", rest);
  }

  /** What follows the first object of `Objects(keys, rows) + rest`. */
  function ObjectsTail(keys: seq<string>, rows: seq<seq<string>>, rest: string): string
    requires rows != [] && WellShaped(keys, rows)
  {
    if |rows| == 1 then rest else "," + (Objects(keys, rows[1..]) + rest)
  }

  lemma ObjectsUnfold(keys: seq<string>, rows: seq<seq<string>>, rest: string)
    requires rows != [] && WellShaped(keys, rows)
    ensures Objects(keys, rows) + rest == Object(keys, rows[0]) + ObjectsTail(keys, rows, rest)
  {
    var first := Object(keys, rows[0]);
    if |rows| == 1 {
      assert Objects(keys, rows) == first + "";
    } else {
      var more := Objects(keys, rows[1..]);
      assert Objects(keys, rows) == first + ("," + more);
      AppendAssoc(first, "," + more, rest);
      AppendAssoc(",", more, rest);
    }
  }

  lemma AppendAssoc<T>(a: seq<T>, b: seq<T>, c: seq<T>)
    ensures (a + b) + c == a + (b + c)
  {
  }

  /** Reading an object, whose values hold no quote, that no comma follows. */
  lemma ReadLastObject(keys: seq<string>, values: seq<string>, rest: string)
    requires |values| == |keys| > 0
    requires forall j :: 0 <= j < |values| ==> Quote !in values[j]
    requires rest == [] || rest[0] != ','
    ensures ReadObjects(keys, Object(keys, values) + rest) == Some(([values], rest))
  {
    ReadObjectBack(keys, values, rest);
  }

  /** Reading past an object, whose values hold no quote, that a comma and
      further objects follow. */
  lemma ReadObjectThenMore(keys: seq<string>, values: seq<string>, more: string, q: (seq<seq<string>>, string))
    requires |values| == |keys| > 0
    requires forall j :: 0 <= j < |values| ==> Quote !in values[j]
    requires ReadObjects(keys, more) == Some(q)
    ensures ReadObjects(keys, Object(keys, values) + ("," + more)) == Some(([values] + q.0, q.1))
  {
    ReadObjectBack(keys, values, "," + more);
    assert ("," + more)[1..] == more;
  }

  lemma {:induction false} ReadObjectsBack(keys: seq<string>, rows: seq<seq<string>>, rest: string)
    requires rows != [] && WellShaped(keys, rows) && QuoteFree(rows)
    requires rest == [] || rest[0] != ','
    ensures ReadObjects(keys, Objects(keys, rows) + rest) == Some((rows, rest))
    decreases |rows|
  {
    ObjectsUnfold(keys, rows, rest);
    if |rows| > 1 {
      var more := Objects(keys, rows[1..]) + rest;
      ReadObjectsBack(keys, rows[1..], rest);
      assert ObjectsTail(keys, rows, rest) == "," + more;
      ReadObjectThenMore(keys, rows[0], more, (rows[1..], rest));
      assert [rows[0]] + rows[1..] == rows;
    } else {
      ReadLastObject(keys, rows[0], rest);
      assert rows == [rows[0]];
    }
  }

  lemma ReadSnapshotBack(rows: seq<seq<string>>)
    requires WellShaped(SnapshotKeys, rows) && QuoteFree(rows)
    ensures ReadSnapshot(SnapshotHead + Objects(SnapshotKeys, rows) + SnapshotTail) == Some(rows)
  {
    var objects := Objects(SnapshotKeys, rows);
    AppendAssoc(SnapshotHead, objects, SnapshotTail);
    AfterPrefix(SnapshotHead, objects + SnapshotTail);
    if rows != [] {
      ReadObjectsBack(SnapshotKeys, rows, SnapshotTail);
      assert |objects + SnapshotTail| > |SnapshotTail|;
    }
  }

  /** The snapshot reads back as the nine values of every site, in list
      order, as long as no value holds a quote (values are not escaped). */
  lemma SnapshotReadsBack(sites: seq<Site>)
    requires QuoteFree(AllValues(sites))
    ensures ReadSnapshot(ConvertSitesToJson(sites)) == Some(AllValues(sites))
  {
    ReadSnapshotBack(AllValues(sites));
  }

  /** Values are not escaped: a value holding a quote reads back cut short at
      the quote, and the rest of it is left over as if it were JSON. */
  lemma QuoteCutsValue(key: string, rest: string)
    ensures ReadMembers([key], Member(key, "a\"b") + rest) == Some((["a"], "b\"" + rest))
  {
    assert Member(key, "a\"b") + rest == FieldHead(key) + ("a" + [Quote] + ("b\"" + rest));
    ReadFirstMember([key], "a", "b\"" + rest);
  }
}
