/**
 * The property index of an object shape (`jsonToJSProps` / `jsToJSONProps`): a
 * JavaScript object built by one assignment per declared property, mapping the
 * key read from the input to the key written to the output and its descriptor.
 */
module PropIndex {
  import opened Descriptor

  /** Decoding (`cast`, wire to typed) or encoding (`uncast`, typed to wire). */
  datatype Direction = JsonToJs | JsToJson

  /** One property of the index object: `index[from] = { key: to, typ: typ }`. */
  datatype Entry = Entry(from: string, to: string, typ: Typ)

  /** The assignment made for one declared property. */
  function EntryFor(dir: Direction, p: Prop): Entry
  {
    if dir == JsonToJs then Entry(p.json, p.js, p.typ) else Entry(p.js, p.json, p.typ)
  }

  /** The own property names of an index object. */
  function Sources(idx: seq<Entry>): set<string>
  {
    set i | 0 <= i < |idx| :: idx[i].from
  }

  function Targets(idx: seq<Entry>): set<string>
  {
    set i | 0 <= i < |idx| :: idx[i].to
  }

  predicate UniqueSources(idx: seq<Entry>)
  {
    forall i, j :: 0 <= i < j < |idx| ==> idx[i].from != idx[j].from
  }

  lemma SourcesCons(idx: seq<Entry>)
    requires idx != []
    ensures Sources(idx) == {idx[0].from} + Sources(idx[1..])
  {
    forall x | x in Sources(idx) ensures x in {idx[0].from} + Sources(idx[1..]) {
      var i :| 0 <= i < |idx| && idx[i].from == x;
      if i > 0 { assert idx[1..][i - 1].from == x; }
    }
    forall x | x in Sources(idx[1..]) ensures x in Sources(idx) {
      var i :| 0 <= i < |idx[1..]| && idx[1..][i].from == x;
      assert idx[i + 1].from == x;
    }
  }

  lemma InSources(idx: seq<Entry>, x: Entry)
    requires x in idx
    ensures x.from in Sources(idx)
  {
    var i :| 0 <= i < |idx| && idx[i] == x;
  }

  /** Splitting a list with unique sources into its head and tail, and joining them back. */
  lemma UniqueCons(idx: seq<Entry>)
    requires idx != []
    ensures UniqueSources(idx) <==> UniqueSources(idx[1..]) && idx[0].from !in Sources(idx[1..])
  {
    if UniqueSources(idx) {
      forall i | 0 <= i < |idx[1..]| ensures idx[1..][i].from != idx[0].from {
        assert idx[1..][i] == idx[i + 1];
      }
    }
    if UniqueSources(idx[1..]) && idx[0].from !in Sources(idx[1..]) {
      forall i, j | 0 <= i < j < |idx| ensures idx[i].from != idx[j].from {
        assert idx[j] == idx[1..][j - 1];
        if i == 0 { assert idx[j].from in Sources(idx[1..]); }
        else { assert idx[i] == idx[1..][i - 1]; }
      }
    }
  }

  /** `index[e.from] = ...`: an existing property is overwritten in place, a new one is appended. */
  function Insert(idx: seq<Entry>, e: Entry): seq<Entry>
  {
    if idx == [] then [e]
    else if idx[0].from == e.from then [e] + idx[1..]
    else [idx[0]] + Insert(idx[1..], e)
  }

  /** The assignment keeps the keys unique and adds exactly the one key. */
  lemma {:induction false} InsertKeys(idx: seq<Entry>, e: Entry)
    requires UniqueSources(idx)
    ensures UniqueSources(Insert(idx, e))
    ensures Sources(Insert(idx, e)) == Sources(idx) + {e.from}
    ensures e.from !in Sources(idx) ==> Insert(idx, e) == idx + [e]
  {
    var r := Insert(idx, e);
    if idx == [] {
      assert r[0].from == e.from;
    } else {
      SourcesCons(idx);
      UniqueCons(idx);
      var t := idx[1..];
      assert idx == [idx[0]] + t;
      if idx[0].from == e.from {
        assert r[1..] == t;
        SourcesCons(r);
        UniqueCons(r);
      } else {
        InsertKeys(t, e);
        assert r[1..] == Insert(t, e);
        SourcesCons(r);
        UniqueCons(r);
      }
    }
  }

  /** The entries after the assignment: the new one, and the old ones under other keys. */
  lemma {:induction false} InsertMembers(idx: seq<Entry>, e: Entry)
    requires UniqueSources(idx)
    ensures forall x :: x in Insert(idx, e) <==> (x == e || (x in idx && x.from != e.from))
  {
    if idx != [] {
      UniqueCons(idx);
      var t := idx[1..];
      assert idx == [idx[0]] + t;
      if idx[0].from == e.from {
        forall x | x in t ensures x.from != e.from { InSources(t, x); }
      } else {
        InsertMembers(t, e);
      }
    }
  }

  /** On an object (unique keys), the assignment adds or replaces exactly the one key. */
  lemma InsertFacts(idx: seq<Entry>, e: Entry)
    requires UniqueSources(idx)
    ensures UniqueSources(Insert(idx, e))
    ensures Sources(Insert(idx, e)) == Sources(idx) + {e.from}
    ensures forall x :: x in Insert(idx, e) <==> (x == e || (x in idx && x.from != e.from))
    ensures e.from !in Sources(idx) ==> Insert(idx, e) == idx + [e]
  {
    InsertKeys(idx, e);
    InsertMembers(idx, e);
  }

  /** The index object built by `props.forEach(p => map[...] = ...)`, in declaration order. */
  function IndexFor(dir: Direction, props: seq<Prop>): seq<Entry>
  {
    if props == [] then []
    else Insert(IndexFor(dir, props[..|props| - 1]), EntryFor(dir, props[|props| - 1]))
  }

  /** The index is an object: no key occurs twice. */
  lemma {:induction false} IndexUnique(dir: Direction, props: seq<Prop>)
    ensures UniqueSources(IndexFor(dir, props))
  {
    if props != [] {
      IndexUnique(dir, props[..|props| - 1]);
      InsertFacts(IndexFor(dir, props[..|props| - 1]), EntryFor(dir, props[|props| - 1]));
    }
  }

  /** `jsonToJSProps`: wire key to in-memory key. */
  function DecodeIndex(props: seq<Prop>): seq<Entry> { IndexFor(JsonToJs, props) }

  /** `jsToJSONProps`: in-memory key to wire key. */
  function EncodeIndex(props: seq<Prop>): seq<Entry> { IndexFor(JsToJson, props) }

  /** Property `i` supplies the last assignment to its index key. */
  predicate LastAssignment(dir: Direction, props: seq<Prop>, i: int)
    requires 0 <= i < |props|
  {
    forall j :: i < j < |props| ==> EntryFor(dir, props[j]).from != EntryFor(dir, props[i]).from
  }

  /** The keys of the index are the index keys of the declared properties. */
  lemma {:induction false} IndexSources(dir: Direction, props: seq<Prop>)
    ensures Sources(IndexFor(dir, props)) == set i | 0 <= i < |props| :: EntryFor(dir, props[i]).from
  {
    if props != [] {
      var n := |props| - 1;
      var init := props[..n];
      IndexSources(dir, init);
      IndexUnique(dir, init);
      InsertFacts(IndexFor(dir, init), EntryFor(dir, props[n]));
      assert forall i :: 0 <= i < n ==> init[i] == props[i];
      var all := set i | 0 <= i < |props| :: EntryFor(dir, props[i]).from;
      var before := set i | 0 <= i < |init| :: EntryFor(dir, init[i]).from;
      forall x | x in all ensures x in before + {EntryFor(dir, props[n]).from} {
        var i :| 0 <= i < |props| && EntryFor(dir, props[i]).from == x;
        if i < n { assert EntryFor(dir, init[i]).from == x; }
      }
      forall x | x in before ensures x in all {
        var i :| 0 <= i < |init| && EntryFor(dir, init[i]).from == x;
        assert EntryFor(dir, props[i]).from == x;
      }
      assert EntryFor(dir, props[n]).from in all;
      assert all == before + {EntryFor(dir, props[n]).from};
    }
  }

  /** Every entry of the index is the assignment made by the last declared property with its key. */
  lemma {:induction false} IndexEntriesAreLast(dir: Direction, props: seq<Prop>)
    ensures forall x :: x in IndexFor(dir, props) ==>
              exists i :: 0 <= i < |props| && x == EntryFor(dir, props[i]) && LastAssignment(dir, props, i)
  {
    if props != [] {
      var n := |props| - 1;
      var init := props[..n];
      IndexEntriesAreLast(dir, init);
      var e := EntryFor(dir, props[n]);
      IndexUnique(dir, init);
      InsertFacts(IndexFor(dir, init), e);
      assert forall i :: 0 <= i < n ==> init[i] == props[i];
      forall x | x in IndexFor(dir, props)
        ensures exists i :: 0 <= i < |props| && x == EntryFor(dir, props[i]) && LastAssignment(dir, props, i)
      {
        if x == e {
          assert LastAssignment(dir, props, n);
        } else {
          assert x in IndexFor(dir, init) && x.from != e.from;
          var i :| 0 <= i < |init| && x == EntryFor(dir, init[i]) && LastAssignment(dir, init, i);
          assert LastAssignment(dir, props, i);
        }
      }
    }
  }

  /** The assignment made by the last declared property with a given key is in the index. */
  lemma {:induction false} IndexContainsLast(dir: Direction, props: seq<Prop>)
    ensures forall i :: 0 <= i < |props| && LastAssignment(dir, props, i) ==>
              EntryFor(dir, props[i]) in IndexFor(dir, props)
  {
    if props != [] {
      var n := |props| - 1;
      var init := props[..n];
      IndexContainsLast(dir, init);
      IndexUnique(dir, init);
      InsertFacts(IndexFor(dir, init), EntryFor(dir, props[n]));
      assert forall i :: 0 <= i < n ==> init[i] == props[i];
      forall i | 0 <= i < |props| && LastAssignment(dir, props, i)
        ensures EntryFor(dir, props[i]) in IndexFor(dir, props)
      {
        if i < n {
          assert LastAssignment(dir, init, i);
          assert EntryFor(dir, props[i]) in IndexFor(dir, init);
        }
      }
    }
  }

  /** The index written as a plain list, one entry per declared property. */
  function Entries(dir: Direction, props: seq<Prop>): seq<Entry>
  {
    seq(|props|, i requires 0 <= i < |props| => EntryFor(dir, props[i]))
  }

  predicate DistinctJsonNames(props: seq<Prop>)
  {
    forall i, j :: 0 <= i < j < |props| ==> props[i].json != props[j].json
  }

  predicate DistinctJsNames(props: seq<Prop>)
  {
    forall i, j :: 0 <= i < j < |props| ==> props[i].js != props[j].js
  }

  lemma EntriesSnoc(dir: Direction, props: seq<Prop>)
    requires props != []
    ensures Entries(dir, props) == Entries(dir, props[..|props| - 1]) + [EntryFor(dir, props[|props| - 1])]
  {
  }

  /** A key that no earlier property assigns is not yet in the index. */
  lemma FreshKey(dir: Direction, props: seq<Prop>, k: string)
    requires forall i :: 0 <= i < |props| ==> EntryFor(dir, props[i]).from != k
    ensures k !in Sources(IndexFor(dir, props))
  {
    IndexSources(dir, props);
  }

  /** When no index key repeats, the index is the declared list itself. */
  lemma {:induction false} IndexWithoutRepeats(dir: Direction, props: seq<Prop>)
    requires forall i, j :: 0 <= i < j < |props| ==> EntryFor(dir, props[i]).from != EntryFor(dir, props[j]).from
    ensures IndexFor(dir, props) == Entries(dir, props)
  {
    if props != [] {
      var n := |props| - 1;
      var init := props[..n];
      var e := EntryFor(dir, props[n]);
      assert forall i :: 0 <= i < n ==> init[i] == props[i];
      IndexWithoutRepeats(dir, init);
      FreshKey(dir, init, e.from);
      IndexUnique(dir, init);
      InsertFacts(IndexFor(dir, init), e);
      EntriesSnoc(dir, props);
    }
  }

  function Swapped(idx: seq<Entry>): seq<Entry>
  {
    seq(|idx|, i requires 0 <= i < |idx| => Entry(idx[i].to, idx[i].from, idx[i].typ))
  }

  /**
   * With no repeated wire key and no repeated in-memory key, the encode index is
   * the decode index with `from` and `to` swapped in every entry.
   */
  lemma EncodeIsSwappedDecode(props: seq<Prop>)
    requires DistinctJsonNames(props) && DistinctJsNames(props)
    ensures EncodeIndex(props) == Swapped(DecodeIndex(props))
  {
    IndexWithoutRepeats(JsonToJs, props);
    IndexWithoutRepeats(JsToJson, props);
  }

  /** When every property keeps its name, both directions build the same index. */
  lemma {:induction false} IdentityNamesSameIndex(props: seq<Prop>)
    requires forall i :: 0 <= i < |props| ==> props[i].json == props[i].js
    ensures DecodeIndex(props) == EncodeIndex(props)
  {
    if props != [] {
      var n := |props| - 1;
      assert forall i :: 0 <= i < n ==> props[..n][i] == props[i];
      IdentityNamesSameIndex(props[..n]);
    }
  }
}
