/**
 * A configuration section as the shop reads and writes it: the keys of the
 * section in the order the store hands them out, each with its value already
 * read (`getDouble` for prices, `getInt` for minimum amounts).
 *
 * Loading folds the entries into a table from first to last, turning each key
 * into an item id with `Integer.parseInt` and skipping a key that does not
 * parse. Saving writes one entry `Integer.toString(id) -> value` per entry of
 * the table, in whatever order the table is iterated.
 */
module Config {
  import opened Wrappers
  import opened JavaInt

  type Entry<V> = (string, V)
  type Section<V> = seq<Entry<V>>

  /**
   * The configuration file's contents: its top-level sections by name. The
   * price sections hold decimals (`getDouble`), the minimum-amount sections
   * integers (`getInt`), so the two kinds are kept apart.
   */
  datatype Store = Store(decimalSections: map<string, Section<real>>, intSections: map<string, Section<int32>>)

  /** `getConfigurationSection(name)`, with a missing section read as an empty one. */
  function SectionOr<V>(sections: map<string, Section<V>>, name: string): (section: Section<V>)
    ensures name in sections ==> section == sections[name]
    ensures name !in sections ==> section == []
  {
    if name in sections then sections[name] else []
  }

  /** One step of the load loop: `put` the entry if its key parses, else skip it. */
  function LoadEntry<V>(m: map<int32, V>, e: Entry<V>): (r: map<int32, V>)
    ensures ParseInt(e.0).None? ==> r == m
    ensures ParseInt(e.0).Some? ==> r == m[ParseInt(e.0).value := e.1]
  {
    match ParseInt(e.0)
    case None => m
    case Some(id) => m[id := e.1]
  }

  /** The table after the load loop has run over every entry of `section`, in order. */
  function LoadInto<V>(m: map<int32, V>, section: Section<V>): (r: map<int32, V>)
    ensures m.Keys <= r.Keys
    decreases |section|
  {
    if section == [] then m
    else LoadEntry(LoadInto(m, section[..|section| - 1]), section[|section| - 1])
  }

  /** The item ids the keys of `section` parse to. */
  function ParsedIds<V>(section: Section<V>): (ids: set<int32>)
    decreases |section|
  {
    if section == [] then {}
    else
      var last := section[|section| - 1];
      ParsedIds(section[..|section| - 1])
        + (match ParseInt(last.0) case None => {} case Some(id) => {id})
  }

  lemma {:induction false} ParsedIdsMember<V>(section: Section<V>, id: int32)
    ensures id in ParsedIds(section) <==>
            exists i :: 0 <= i < |section| && ParseInt(section[i].0) == Some(id)
    decreases |section|
  {
    if section != [] {
      var init := section[..|section| - 1];
      ParsedIdsMember(init, id);
      if id in ParsedIds(init) {
        var i :| 0 <= i < |init| && ParseInt(init[i].0) == Some(id);
        assert section[i] == init[i];
      }
      if i :| 0 <= i < |section| && ParseInt(section[i].0) == Some(id) {
        if i < |init| { assert section[i] == init[i]; }
      }
    }
  }

  /**
   * Loading never removes an entry, and adds exactly the ids whose keys parse:
   * the keys afterwards are the old keys plus every parsed id.
   */
  lemma {:induction false} LoadKeys<V>(m: map<int32, V>, section: Section<V>)
    ensures LoadInto(m, section).Keys == m.Keys + ParsedIds(section)
    decreases |section|
  {
    if section != [] {
      LoadKeys(m, section[..|section| - 1]);
    }
  }

  /** Every key that parses is `put`: its id is in the table after loading. */
  lemma LoadPutsEveryParsedKey<V>(m: map<int32, V>, section: Section<V>, i: nat)
    requires i < |section| && ParseInt(section[i].0).Some?
    ensures ParseInt(section[i].0).value in LoadInto(m, section)
  {
    LoadKeys(m, section);
    ParsedIdsMember(section, ParseInt(section[i].0).value);
  }

  /**
   * Keys are processed in order: the value an id has after loading is the
   * value of the last entry whose key parses to it.
   */
  lemma {:induction false} LoadLastWins<V>(m: map<int32, V>, section: Section<V>, i: nat, id: int32)
    requires i < |section| && ParseInt(section[i].0) == Some(id)
    requires forall j :: i < j < |section| ==> ParseInt(section[j].0) != Some(id)
    ensures id in LoadInto(m, section) && LoadInto(m, section)[id] == section[i].1
    decreases |section|
  {
    var init := section[..|section| - 1];
    if i < |section| - 1 {
      forall j | i < j < |init| ensures ParseInt(init[j].0) != Some(id) {
        assert init[j] == section[j];
      }
      assert init[i] == section[i];
      LoadLastWins(m, init, i, id);
    }
  }

  /** An id that no key parses to keeps its old entry, or stays absent. */
  lemma {:induction false} LoadUntouched<V>(m: map<int32, V>, section: Section<V>, id: int32)
    requires forall j :: 0 <= j < |section| ==> ParseInt(section[j].0) != Some(id)
    ensures id in LoadInto(m, section) <==> id in m
    ensures id in m ==> LoadInto(m, section)[id] == m[id]
    decreases |section|
  {
    if section != [] {
      var init := section[..|section| - 1];
      forall j | 0 <= j < |init| ensures ParseInt(init[j].0) != Some(id) {
        assert init[j] == section[j];
      }
      LoadUntouched(m, init, id);
    }
  }

  /** The entries of `section` whose keys parse, in their order. */
  function Parseable<V>(section: Section<V>): (r: Section<V>)
    ensures forall i :: 0 <= i < |r| ==> ParseInt(r[i].0).Some?
    decreases |section|
  {
    if section == [] then []
    else
      var init := Parseable(section[..|section| - 1]);
      var last := section[|section| - 1];
      if ParseInt(last.0).Some? then init + [last] else init
  }

  /** Skipping: loading a section gives what loading only its parseable entries gives. */
  lemma {:induction false} LoadSkipsUnparseable<V>(m: map<int32, V>, section: Section<V>)
    ensures LoadInto(m, section) == LoadInto(m, Parseable(section))
    decreases |section|
  {
    if section != [] {
      var init := section[..|section| - 1];
      var last := section[|section| - 1];
      LoadSkipsUnparseable(m, init);
      if ParseInt(last.0).Some? {
        var p := Parseable(init) + [last];
        assert p[..|p| - 1] == Parseable(init);
      }
    }
  }

  /** The section the save loop writes after visiting the ids `ks` of `m`, in that order. */
  function SectionFor<V>(m: map<int32, V>, ks: seq<int32>): (section: Section<V>)
    requires forall i :: 0 <= i < |ks| ==> ks[i] in m
    ensures |section| == |ks|
    decreases |ks|
  {
    if ks == [] then []
    else
      var k := ks[|ks| - 1];
      SectionFor(m, ks[..|ks| - 1]) + [(IntToString(k), m[k])]
  }

  /** `ks` visits every key of `keys` exactly once: one iteration order of a map. */
  ghost predicate Enumerates(ks: seq<int32>, keys: set<int32>) {
    && (forall i, j :: 0 <= i < j < |ks| ==> ks[i] != ks[j])
    && (forall i :: 0 <= i < |ks| ==> ks[i] in keys)
    && (forall k :: k in keys ==> k in ks)
  }

  /** `section` is what saving `m` writes, for some iteration order of `m`. */
  ghost predicate Encodes<V>(section: Section<V>, m: map<int32, V>) {
    exists ks :: Enumerates(ks, m.Keys) && section == SectionFor(m, ks)
  }

  /** The entries of `m` at the ids `ks`. */
  function Restrict<V>(m: map<int32, V>, ks: seq<int32>): (r: map<int32, V>)
    requires forall i :: 0 <= i < |ks| ==> ks[i] in m
    ensures r.Keys <= m.Keys
    decreases |ks|
  {
    if ks == [] then map[]
    else
      var k := ks[|ks| - 1];
      Restrict(m, ks[..|ks| - 1])[k := m[k]]
  }

  lemma {:induction false} RestrictAgrees<V>(m: map<int32, V>, ks: seq<int32>, k: int32)
    requires forall i :: 0 <= i < |ks| ==> ks[i] in m
    ensures k in Restrict(m, ks) <==> k in ks
    ensures k in Restrict(m, ks) ==> Restrict(m, ks)[k] == m[k]
    decreases |ks|
  {
    if ks != [] {
      var init := ks[..|ks| - 1];
      RestrictAgrees(m, init, k);
      if k in ks && k != ks[|ks| - 1] {
        var i :| 0 <= i < |ks| && ks[i] == k;
        assert init[i] == k;
      }
    }
  }

  lemma LoadAppend<V>(base: map<int32, V>, section: Section<V>, e: Entry<V>)
    ensures LoadInto(base, section + [e]) == LoadEntry(LoadInto(base, section), e)
  {
    assert (section + [e])[..|section|] == section;
  }

  lemma UpdateUnion<V>(base: map<int32, V>, r: map<int32, V>, k: int32, v: V)
    ensures (base + r)[k := v] == base + r[k := v]
  {
  }

  lemma {:induction false} LoadSectionFor<V>(base: map<int32, V>, m: map<int32, V>, ks: seq<int32>)
    requires forall i :: 0 <= i < |ks| ==> ks[i] in m
    ensures LoadInto(base, SectionFor(m, ks)) == base + Restrict(m, ks)
    decreases |ks|
  {
    if ks != [] {
      var init := ks[..|ks| - 1];
      var k := ks[|ks| - 1];
      LoadSectionFor(base, m, init);
      LoadAppend(base, SectionFor(m, init), (IntToString(k), m[k]));
      ParseIntToString(k);
      UpdateUnion(base, Restrict(m, init), k, m[k]);
    }
  }

  /**
   * Save then load round-trips: loading a saved section into `base` gives
   * `base` overridden by every saved entry, and into an empty table gives the
   * saved table itself.
   */
  lemma SaveLoadRoundTrip<V>(base: map<int32, V>, section: Section<V>, m: map<int32, V>)
    requires Encodes(section, m)
    ensures LoadInto(base, section) == base + m
    ensures LoadInto(map[], section) == m
  {
    var ks :| Enumerates(ks, m.Keys) && section == SectionFor(m, ks);
    LoadEnumeratedSection(base, m, ks);
    LoadEnumeratedSection(map[], m, ks);
    assert map[] + m == m;
  }

  /** The round trip for one iteration order `ks` of the saved table. */
  lemma LoadEnumeratedSection<V>(base: map<int32, V>, m: map<int32, V>, ks: seq<int32>)
    requires Enumerates(ks, m.Keys)
    ensures LoadInto(base, SectionFor(m, ks)) == base + m
  {
    RestrictAll(m, ks);
    LoadSectionFor(base, m, ks);
  }

  lemma RestrictAll<V>(m: map<int32, V>, ks: seq<int32>)
    requires Enumerates(ks, m.Keys)
    ensures Restrict(m, ks) == m
  {
    var r := Restrict(m, ks);
    forall k ensures (k in r <==> k in m) && (k in r ==> r[k] == m[k]) {
      RestrictAgrees(m, ks, k);
    }
  }

  /** A saved section never holds the same key twice. */
  lemma SavedKeysDistinct<V>(section: Section<V>, m: map<int32, V>, i: nat, j: nat)
    requires Encodes(section, m)
    requires i < j < |section|
    ensures section[i].0 != section[j].0
  {
    var ks :| Enumerates(ks, m.Keys) && section == SectionFor(m, ks);
    SectionForAt(m, ks, i);
    SectionForAt(m, ks, j);
    if section[i].0 == section[j].0 {
      IntToStringInjective(ks[i], ks[j]);
    }
  }

  lemma {:induction false} SectionForAt<V>(m: map<int32, V>, ks: seq<int32>, i: nat)
    requires forall i :: 0 <= i < |ks| ==> ks[i] in m
    requires i < |ks|
    ensures SectionFor(m, ks)[i] == (IntToString(ks[i]), m[ks[i]])
    decreases |ks|
  {
    if i < |ks| - 1 {
      SectionForAt(m, ks[..|ks| - 1], i);
    }
  }
}
