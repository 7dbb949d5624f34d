/** Building either map from a text, and the cache that answers from both (lib/data-position-cache.js). */
module PositionCache {
  import opened Json
  import opened PositionWalk
  import opened PositionFacts
  import opened PositionMaps
  import opened PositionRun
  import opened PositionLines

  // ---------------------------------------------------------------- every entry lies in the text

  predicate AllInText(t: string, es: seq<Entry>) { forall k :: 0 <= k < |es| ==> InText(t, es[k]) }

  predicate KeyIn(t: string, key: Option<(nat, nat)>) { key.Some? ==> key.value.0 <= |t| }

  lemma AllInTextConcat(t: string, a: seq<Entry>, b: seq<Entry>)
    requires AllInText(t, a) && AllInText(t, b)
    ensures AllInText(t, a + b)
  {
  }

  lemma {:induction false} WalkInText(t: string, i: nat, ptr: string, key: Option<(nat, nat)>, parse: Parse)
    requires i <= |t| && KeyIn(t, key) && Walk(t, i, ptr, key, parse).At?
    ensures AllInText(t, Walk(t, i, ptr, key, parse).es)
    decreases |t| - i, 2
  {
    hide ReadString, SkipScalar;
    var s := SkipWs(t, i);
    if s < |t| && t[s] == '{' {
      MembersInText(t, s + 1, ptr, parse);
    } else if s < |t| && t[s] == '[' {
      ItemsInText(t, s + 1, ptr, 0, parse);
    }
  }

  lemma {:induction false} MembersInText(t: string, i: nat, ptr: string, parse: Parse)
    requires i <= |t| && Members(t, i, ptr, parse).At?
    ensures AllInText(t, Members(t, i, ptr, parse).es)
    decreases |t| - i, 1
  {
    hide ReadString, Walk, AllInText, SkipWs, Escape;
    var s := SkipWs(t, i);
    if s >= |t| || t[s] == '}' {
      NoneInText(t);
    } else if t[s] == ',' {
      MembersInText(t, s + 1, ptr, parse);
    } else {
      var r := ReadString(t, s, parse);
      var k := SkipWs(t, r.i);
      WalkInText(t, k + 1, Child(ptr, Escape(r.value)), Some((s, r.i - s)), parse);
      var w := Walk(t, k + 1, Child(ptr, Escape(r.value)), Some((s, r.i - s)), parse);
      MembersInText(t, w.i, ptr, parse);
      AllInTextConcat(t, w.es, Members(t, w.i, ptr, parse).es);
    }
  }

  lemma NoneInText(t: string)
    ensures AllInText(t, [])
  {
  }

  lemma {:induction false} ItemsInText(t: string, i: nat, ptr: string, idx: nat, parse: Parse)
    requires i <= |t| && Items(t, i, ptr, idx, parse).At?
    ensures AllInText(t, Items(t, i, ptr, idx, parse).es)
    decreases |t| - i, 3
  {
    hide Walk, AllInText, SkipWs, NatText;
    var s := SkipWs(t, i);
    if s >= |t| || t[s] == ']' {
      NoneInText(t);
    } else if t[s] == ',' {
      ItemsInText(t, s + 1, ptr, idx, parse);
    } else {
      var w := Walk(t, s, Child(ptr, NatText(idx)), None, parse);
      WalkInText(t, s, Child(ptr, NatText(idx)), None, parse);
      if w.i != s {
        ItemsInText(t, w.i, ptr, idx + 1, parse);
        AllInTextConcat(t, w.es, Items(t, w.i, ptr, idx + 1, parse).es);
      }
    }
  }

  lemma {:induction false} TWalkInText(t: string, i: nat, ptr: string, key: Option<(nat, nat)>, left: int, wanted: set<string>, parse: Parse)
    requires i <= |t| && KeyIn(t, key) && TWalk(t, i, ptr, key, left, wanted, parse).TAt?
    ensures AllInText(t, TWalk(t, i, ptr, key, left, wanted, parse).es)
    decreases |t| - i, 2
  {
    hide ReadString, SkipScalar, Interesting, SkipValue;
    var s := SkipWs(t, i);
    if s < |t| && Interesting(ptr, wanted) {
      if t[s] == '{' {
        TMembersInText(t, s + 1, ptr, left, wanted, parse);
      } else if t[s] == '[' {
        TItemsInText(t, s + 1, ptr, 0, left, wanted, parse);
      }
    }
  }

  lemma {:induction false} TMembersInText(t: string, i: nat, ptr: string, left: int, wanted: set<string>, parse: Parse)
    requires i <= |t| && TMembers(t, i, ptr, left, wanted, parse).TAt?
    ensures AllInText(t, TMembers(t, i, ptr, left, wanted, parse).es)
    decreases |t| - i, 1
  {
    hide ReadString, TWalk, AllInText, SkipWs, Escape;
    var s := SkipWs(t, i);
    if s >= |t| || t[s] == '}' {
      NoneInText(t);
    } else if t[s] == ',' {
      TMembersInText(t, s + 1, ptr, left, wanted, parse);
    } else {
      var r := ReadString(t, s, parse);
      var k := SkipWs(t, r.i);
      TWalkInText(t, k + 1, Child(ptr, Escape(r.value)), Some((s, r.i - s)), left, wanted, parse);
      var w := TWalk(t, k + 1, Child(ptr, Escape(r.value)), Some((s, r.i - s)), left, wanted, parse);
      if w.left != 0 {
        TMembersInText(t, w.i, ptr, w.left, wanted, parse);
        AllInTextConcat(t, w.es, TMembers(t, w.i, ptr, w.left, wanted, parse).es);
      }
    }
  }

  lemma {:induction false} TItemsInText(t: string, i: nat, ptr: string, idx: nat, left: int, wanted: set<string>, parse: Parse)
    requires i <= |t| && TItems(t, i, ptr, idx, left, wanted, parse).TAt?
    ensures AllInText(t, TItems(t, i, ptr, idx, left, wanted, parse).es)
    decreases |t| - i, 3
  {
    hide TWalk, AllInText, SkipWs, NatText;
    var s := SkipWs(t, i);
    if s >= |t| || t[s] == ']' {
      NoneInText(t);
    } else if t[s] == ',' {
      TItemsInText(t, s + 1, ptr, idx, left, wanted, parse);
    } else {
      var w := TWalk(t, s, Child(ptr, NatText(idx)), None, left, wanted, parse);
      TWalkInText(t, s, Child(ptr, NatText(idx)), None, left, wanted, parse);
      if w.left != 0 && w.i != s {
        TItemsInText(t, w.i, ptr, idx + 1, w.left, wanted, parse);
        AllInTextConcat(t, w.es, TItems(t, w.i, ptr, idx + 1, w.left, wanted, parse).es);
      }
    }
  }

  // ---------------------------------------------------------------- the maps

  type Places = map<string, Placed>

  function PlaceAll(t: string, m: map<string, Entry>): Places {
    map p | p in m && InText(t, m[p]) :: Place(t, m[p])
  }

  lemma {:induction false} MapOfValues(t: string, es: seq<Entry>)
    requires AllInText(t, es)
    ensures forall p :: p in MapOf(es) ==> InText(t, MapOf(es)[p])
    decreases |es|
  {
    if es != [] { MapOfValues(t, es[..|es| - 1]); }
  }

  /** None where the source throws. */
  function FullOf(t: string, parse: Parse): Option<Places> {
    match FullWalk(t, parse) case Throw => None case At(_, es) => Some(PlaceAll(t, MapOf(es)))
  }

  ghost function TargetedOf(t: string, wanted: set<string>, parse: Parse): Option<Places> {
    match TargetedWalk(t, wanted, parse) case TThrow => None case TAt(_, es, _, _) => Some(PlaceAll(t, MapOf(es)))
  }

  /** The recorded entries as a map: a later one takes the place of an earlier one under the same pointer. */
  method PlaceEntries(w: Walker) returns (m: Places)
    requires w.Valid() && AllInText(w.text, w.Entries())
    ensures m == PlaceAll(w.text, MapOf(w.Entries()))
  {
    hide Place;
    m := map[];
    if |w.ptrs| == 0 { return; }
    var lines := Lines(w.text, 0);
    var lineStart := StartTable(w.text, lines);
    ghost var es := w.Entries();
    var k := 0;
    while k < |w.ptrs|
      invariant 0 <= k <= |w.ptrs| && m == PlaceAll(w.text, MapOf(es[..k]))
      invariant w.Valid() && es == w.Entries() && StartsTo(w.text, lines, lineStart[..], |lines|)
    {
      assert InText(w.text, es[k]);
      var p := PlaceOne(w.text, lines, lineStart, w.starts[k], w.lens[k], w.keyStarts[k], w.keyLens[k]);
      assert p == Place(w.text, es[k]) by { PlacePtr(w.text, es[k]); }
      MapOfPush(w.text, es, k);
      m := m[w.ptrs[k] := p];
      k := k + 1;
    }
    assert es[..k] == es;
  }

  lemma PlacePtr(t: string, e: Entry)
    requires InText(t, e)
    ensures Place(t, e) == Place(t, Entry("", e.start, e.len, e.key))
  {
  }

  lemma MapOfPush(t: string, es: seq<Entry>, k: nat)
    requires k < |es| && AllInText(t, es)
    ensures PlaceAll(t, MapOf(es[..k + 1])) == PlaceAll(t, MapOf(es[..k]))[es[k].ptr := Place(t, es[k])]
  {
    hide Place;
    assert es[..k + 1][..k] == es[..k] && InText(t, es[k]);
  }

  method BuildFull(t: string, parse: Parse) returns (r: Option<Places>)
    ensures r == FullOf(t, parse)
  {
    hide PlaceAll, MapOf, Walk, AllInText, Zip;
    var w := new Walker.Full(t, parse);
    var ok := w.WalkValue("", -1, 0);
    if !ok { return None; }
    WalkInText(t, StartOf(t), "", None, parse);
    assert w.Entries() == [] + FullWalk(t, parse).es == FullWalk(t, parse).es;
    var m := PlaceEntries(w);
    r := Some(m);
  }

  method BuildTargeted(t: string, wanted: set<string>, parse: Parse) returns (r: Option<Places>)
    ensures r == TargetedOf(t, wanted, parse)
  {
    hide PlaceAll, MapOf, TWalk, AllInText, Zip;
    var w := new Walker.Targeted(t, wanted, parse);
    var ok := w.TargetValue("", -1, 0);
    if !ok { return None; }
    TWalkInText(t, StartOf(t), "", None, |wanted|, wanted, parse);
    assert w.Entries() == [] + TargetedWalk(t, wanted, parse).es == TargetedWalk(t, wanted, parse).es;
    var m := PlaceEntries(w);
    r := Some(m);
  }

  // ---------------------------------------------------------------- the cache

  function Lookup(m: Option<Places>, key: string): Option<Placed> {
    if m.Some? && key in m.value then Some(m.value[key]) else None
  }

  /** What a view answers: from the wanted entries, and from the whole map for anything else. */
  ghost function Answer(t: string, wanted: set<string>, parse: Parse, key: string): Option<Placed> {
    var own := Lookup(TargetedOf(t, wanted, parse), key);
    if own.Some? then own else if key in wanted then None else Lookup(FullOf(t, parse), key)
  }

  class Cache {
    const parse: Parse
    var texts: map<string, Places>

    ghost predicate Valid() reads this {
      forall t :: t in texts ==> Some(texts[t]) == FullOf(t, parse)
    }

    constructor (parse: Parse)
      ensures Valid() && this.parse == parse && texts == map[]
    {
      this.parse := parse;
      texts := map[];
    }

    method Get(input: string) returns (m: Option<Places>)
      requires Valid()
      modifies this
      ensures Valid() && m == FullOf(input, parse)
      ensures texts == if m.Some? then old(texts)[input := m.value] else old(texts)
    {
      hide FullOf;
      if input in texts {
        assert texts == texts[input := texts[input]];
        return Some(texts[input]);
      }
      m := BuildFull(input, parse);
      if m.Some? { texts := texts[input := m.value]; }
    }

    method Reset()
      requires Valid()
      modifies this
      ensures Valid() && texts == map[]
    {
      texts := map[];
    }

    /** Null when there is nothing to ask for or the walk throws. */
    method Targeted(input: string, wanted: set<string>) returns (v: View?)
      requires Valid()
      ensures v == null <==> wanted == {} || (input !in texts && TargetedOf(input, wanted, parse).None?)
      ensures v != null ==> fresh(v) && v.Valid() && v.cache == this && v.input == input
      ensures v != null ==> if input in texts then v.whole && v.target == texts[input] else !v.whole && v.wanted == wanted
    {
      if wanted == {} { return null; }
      if input in texts {
        v := new View(this, input, wanted, texts[input], true);
        return;
      }
      var filtered := BuildTargeted(input, wanted, parse);
      if filtered.None? { return null; }
      v := new View(this, input, wanted, filtered.value, false);
    }
  }

  /** Where the source hands out the whole map itself, `whole` says that there is nothing to fall back to. */
  class View {
    const cache: Cache
    const input: string
    const wanted: set<string>
    const target: Places
    const whole: bool
    var asked: bool
    var full: Option<Places>

    ghost predicate Valid() reads this {
      && Some(target) == (if whole then FullOf(input, cache.parse) else TargetedOf(input, wanted, cache.parse))
      && (asked ==> full == FullOf(input, cache.parse))
    }

    constructor (cache: Cache, input: string, wanted: set<string>, target: Places, whole: bool)
      requires Some(target) == if whole then FullOf(input, cache.parse) else TargetedOf(input, wanted, cache.parse)
      ensures Valid() && this.cache == cache && this.input == input && this.wanted == wanted && this.target == target && this.whole == whole
    {
      this.cache, this.input, this.wanted, this.target, this.whole := cache, input, wanted, target, whole;
      asked, full := false, None;
    }

    /** What the view answers for a key, whether or not it has been asked before. */
    ghost function Says(key: string): Option<Placed> {
      if whole then Lookup(FullOf(input, cache.parse), key) else Answer(input, wanted, cache.parse, key)
    }

    method Get(key: string) returns (e: Option<Placed>)
      requires Valid() && cache.Valid()
      modifies `asked, `full, cache
      ensures Valid() && cache.Valid() && e == Says(key)
    {
      hide FullOf, TargetedOf;
      if key in target { return Some(target[key]); }
      if whole || key in wanted { return None; }
      if !asked {
        var got := cache.Get(input);
        full, asked := got, true;
      }
      e := if full.Some? && key in full.value then Some(full.value[key]) else None;
    }

    method Has(key: string) returns (b: bool)
      requires Valid() && cache.Valid()
      modifies `asked, `full, cache
      ensures Valid() && cache.Valid() && b == Says(key).Some?
    {
      var e := Get(key);
      b := e.Some?;
    }
  }

  /** On a well-formed text with unique member names the view is the full map, for every pointer there is. */
  lemma ViewIsFull(t: string, mark: bool, lead: string, c: Cst, trail: string, wanted: set<string>, parse: Parse, key: string)
    requires Holds(t, mark, lead, c, trail) && WellFormed(c, parse) && Unique(c, parse) && wanted != {}
    ensures FullOf(t, parse).Some? && TargetedOf(t, wanted, parse).Some?
    ensures Answer(t, wanted, parse, key) == Lookup(FullOf(t, parse), key)
  {
    hide Holds, WellFormed, Unique, Place, FullWalk, TargetedWalk, MapOf, InText;
    TargetedAgrees(t, mark, lead, c, trail, wanted, parse);
  }
}
