/** Renaming the top-level fields of a webhook payload, by a loop over a map whose order is
    arbitrary. */
module FieldMapping {
  import opened Wrappers

  /** Stands for any JSON value. */
  type Value = nat

  type Payload = map<string, Value>
  type Mapping = map<string, string>

  // ---- the loop ----

  function Rename(m: Payload, src: string, tgt: string): Payload {
    if src in m then
      var m' := m[tgt := m[src]];
      if src != tgt then m' - {src} else m'
    else m
  }

  function Apply(m: Payload, mapping: Mapping, order: seq<string>): Payload
    requires forall s <- order :: s in mapping
  {
    if order == [] then m
    else
      var s := order[|order| - 1];
      assert s in order;
      Rename(Apply(m, mapping, order[..|order| - 1]), s, mapping[s])
  }

  /** `order` walks the mapping: every pair once. */
  ghost predicate IsOrder(mapping: Mapping, order: seq<string>) {
    && (forall s :: s in order <==> s in mapping)
    && (forall i, k :: 0 <= i < k < |order| ==> order[i] != order[k])
  }

  function Members(order: seq<string>): set<string> { set s | s in order }

  // ---- renaming all at once ----

  /** The pair changes the name of its field. */
  predicate Real(mapping: Mapping, s: string) { s in mapping && mapping[s] != s }

  /** Targets are distinct, and none is another pair's source. */
  ghost predicate Good(mapping: Mapping) {
    && (forall s, s' :: Real(mapping, s) && Real(mapping, s') && s != s' ==> mapping[s] != mapping[s'])
    && (forall s :: Real(mapping, s) ==> !Real(mapping, mapping[s]))
  }

  predicate Moves(m: Payload, mapping: Mapping, done: set<string>, s: string) {
    s in done && s in m && Real(mapping, s)
  }

  /** The field `k` when the pairs with sources in `done` are renamed simultaneously. */
  ghost function At(m: Payload, mapping: Mapping, done: set<string>, k: string): Option<Value> {
    if exists s :: Moves(m, mapping, done, s) && mapping[s] == k then
      var s :| Moves(m, mapping, done, s) && mapping[s] == k;
      Some(m[s])
    else if k in m && !(k in done && Real(mapping, k)) then Some(m[k])
    else None
  }

  function Lookup(m: Payload, k: string): Option<Value> { if k in m then Some(m[k]) else None }

  ghost predicate Renamed(r: Payload, m: Payload, mapping: Mapping, done: set<string>) {
    forall k :: Lookup(r, k) == At(m, mapping, done, k)
  }

  lemma SamePayload(a: Payload, b: Payload)
    requires forall k :: Lookup(a, k) == Lookup(b, k)
    ensures a == b
  {
    forall k ensures k in a <==> k in b {
      assert Lookup(a, k) == Lookup(b, k);
    }
    forall k | k in a ensures a[k] == b[k] {
      assert Lookup(a, k) == Lookup(b, k);
    }
  }

  lemma StepRenames(r: Payload, m: Payload, mapping: Mapping, done: set<string>, s: string)
    requires Good(mapping) && Renamed(r, m, mapping, done) && s in mapping && s !in done
    ensures Renamed(Rename(r, s, mapping[s]), m, mapping, done + {s})
  {
    var r' := Rename(r, s, mapping[s]);
    assert Lookup(r, s) == At(m, mapping, done, s);
    if Real(mapping, s) {
      assert forall x :: Moves(m, mapping, done, x) ==> mapping[x] != s;
      assert Lookup(r, s) == Lookup(m, s);
    }
    forall k ensures Lookup(r', k) == At(m, mapping, done + {s}, k) {
      assert Lookup(r, k) == At(m, mapping, done, k);
      if Real(mapping, s) && s in m && k == mapping[s] {
        assert Moves(m, mapping, done + {s}, s);
      } else {
        assert forall x :: Moves(m, mapping, done + {s}, x) && mapping[x] == k ==> Moves(m, mapping, done, x);
        assert forall x :: Moves(m, mapping, done, x) ==> Moves(m, mapping, done + {s}, x);
      }
    }
  }

  lemma NothingDone(m: Payload, mapping: Mapping)
    ensures Renamed(m, m, mapping, {})
  {
  }

  lemma {:induction false} ApplyRenames(m: Payload, mapping: Mapping, order: seq<string>)
    requires Good(mapping) && forall s <- order :: s in mapping
    requires forall i, k :: 0 <= i < k < |order| ==> order[i] != order[k]
    ensures Renamed(Apply(m, mapping, order), m, mapping, Members(order))
  {
    if order == [] {
      assert Members(order) == {};
      NothingDone(m, mapping);
    } else {
      var n := |order| - 1;
      ApplyRenames(m, mapping, order[..n]);
      assert order == order[..n] + [order[n]] && order[n] !in order[..n];
      assert Members(order) == Members(order[..n]) + {order[n]};
      StepRenames(Apply(m, mapping, order[..n]), m, mapping, Members(order[..n]), order[n]);
    }
  }

  // ---- confluence, exactly ----

  lemma {:induction false} WalkOf(keys: set<string>) returns (order: seq<string>)
    ensures forall s :: s in order <==> s in keys
    ensures forall i, k :: 0 <= i < k < |order| ==> order[i] != order[k]
    decreases |keys|
  {
    order := [];
    if keys != {} {
      var s :| s in keys;
      var rest := WalkOf(keys - {s});
      order := rest + [s];
    }
  }

  lemma {:induction false} NothingToRename(m: Payload, mapping: Mapping, order: seq<string>)
    requires forall s <- order :: s in mapping && s !in m
    ensures Apply(m, mapping, order) == m
  {
    if order != [] {
      assert order[|order| - 1] in order;
      NothingToRename(m, mapping, order[..|order| - 1]);
    }
  }

  lemma LastTwo(m: Payload, mapping: Mapping, rest: seq<string>, a: string, b: string)
    requires forall s <- rest :: s in mapping && s !in m
    requires a in mapping && b in mapping
    ensures Apply(m, mapping, rest + [a] + [b]) == Rename(Rename(m, a, mapping[a]), b, mapping[b])
  {
    NothingToRename(m, mapping, rest);
    assert (rest + [a] + [b])[..|rest| + 1] == rest + [a];
    assert (rest + [a])[..|rest|] == rest;
  }

  ghost predicate Differ(mapping: Mapping, m: Payload, o: seq<string>, o': seq<string>) {
    IsOrder(mapping, o) && IsOrder(mapping, o') && Apply(m, mapping, o) != Apply(m, mapping, o')
  }

  /** Two walks of the mapping give different results on some payload. */
  ghost predicate OrderMatters(mapping: Mapping) {
    exists m: Payload, o, o' :: Differ(mapping, m, o, o')
  }

  lemma OrderOf(mapping: Mapping, rest: seq<string>, a: string, b: string)
    requires a in mapping && b in mapping && a != b && IsOrder(mapping - {a, b}, rest)
    ensures IsOrder(mapping, rest + [a] + [b])
  {
    var o := rest + [a] + [b];
    forall s ensures s in o <==> s in mapping {
      assert s in o <==> s in rest || s == a || s == b;
    }
    assert a !in rest && b !in rest;
  }

  /** A walk of the other pairs, which can be ended with the two in either order. */
  lemma WalkOfTheRest(mapping: Mapping, a: string, b: string) returns (rest: seq<string>)
    requires a in mapping && b in mapping && a != b
    ensures forall s <- rest :: s in mapping && s != a && s != b
    ensures IsOrder(mapping, rest + [a] + [b]) && IsOrder(mapping, rest + [b] + [a])
  {
    rest := WalkOf((mapping - {a, b}).Keys);
    forall s | s in rest ensures s in mapping && s != a && s != b {
      assert s in mapping - {a, b};
    }
    assert mapping - {b, a} == mapping - {a, b};
    OrderOf(mapping, rest, a, b);
    OrderOf(mapping, rest, b, a);
  }

  lemma ClashMatters(mapping: Mapping, a: string, b: string, m: Payload)
    requires a in mapping && b in mapping && a != b && m.Keys <= {a, b}
    requires Rename(Rename(m, a, mapping[a]), b, mapping[b]) != Rename(Rename(m, b, mapping[b]), a, mapping[a])
    ensures OrderMatters(mapping)
  {
    var rest := WalkOfTheRest(mapping, a, b);
    LastTwo(m, mapping, rest, a, b);
    LastTwo(m, mapping, rest, b, a);
    assert Differ(mapping, m, rest + [a] + [b], rest + [b] + [a]);
  }

  /** The result depends on the order of the walk if and only if two pairs share a target or a
      target is another pair's source; pairs that keep the name do not count. */
  lemma ConfluentExactly(mapping: Mapping)
    ensures OrderMatters(mapping) <==> !Good(mapping)
  {
    if Good(mapping) {
      forall m: Payload, o, o' | IsOrder(mapping, o) && IsOrder(mapping, o')
        ensures !Differ(mapping, m, o, o')
      {
        ApplyRenames(m, mapping, o);
        ApplyRenames(m, mapping, o');
        assert Members(o) == Members(o');
        forall k ensures Lookup(Apply(m, mapping, o), k) == Lookup(Apply(m, mapping, o'), k) {}
        SamePayload(Apply(m, mapping, o), Apply(m, mapping, o'));
      }
    } else if s, s' :| Real(mapping, s) && Real(mapping, s') && s != s' && mapping[s] == mapping[s'] {
      SharedTarget(mapping, s, s');
    } else {
      var s :| Real(mapping, s) && Real(mapping, mapping[s]);
      Chained(mapping, s);
    }
  }

  lemma SharedTarget(mapping: Mapping, s: string, s': string)
    requires Real(mapping, s) && Real(mapping, s') && s != s' && mapping[s] == mapping[s']
    ensures OrderMatters(mapping)
  {
    var t := mapping[s];
    var m: Payload := map[s := 0, s' := 1];
    assert Rename(Rename(m, s, t), s', t)[t] == 1;
    assert Rename(Rename(m, s', t), s, t)[t] == 0;
    ClashMatters(mapping, s, s', m);
  }

  lemma Chained(mapping: Mapping, s: string)
    requires Real(mapping, s) && Real(mapping, mapping[s])
    ensures OrderMatters(mapping)
  {
    var t, u := mapping[s], mapping[mapping[s]];
    var m: Payload := map[s := 0];
    assert t !in Rename(Rename(m, s, t), t, u);
    assert Rename(m, t, u) == m && t in Rename(m, s, t);
    ClashMatters(mapping, s, t, m);
  }

  // ---- undoing it ----

  /** From each new name back to the old one. */
  ghost function Inverse(mapping: Mapping): (inv: Mapping)
    requires Good(mapping)
    ensures forall s :: Real(mapping, s) ==> mapping[s] in inv && inv[mapping[s]] == s
    ensures forall t :: t in inv ==> Real(mapping, inv[t]) && mapping[inv[t]] == t
  {
    map s | s in mapping && mapping[s] != s :: mapping[s] := s
  }

  lemma InverseIsGood(mapping: Mapping)
    requires Good(mapping)
    ensures Good(Inverse(mapping)) && forall t :: t in Inverse(mapping) ==> Real(Inverse(mapping), t)
  {
  }

  /** What the renamed payload holds under one name. */
  lemma AfterRenaming(r: Payload, m: Payload, mapping: Mapping, k: string)
    requires Good(mapping) && Renamed(r, m, mapping, mapping.Keys)
    ensures Real(mapping, k) ==> k !in r
    ensures forall s :: Real(mapping, s) && mapping[s] == k ==>
              Lookup(r, k) == if s in m then Some(m[s]) else Lookup(m, k)
    ensures (forall s :: Real(mapping, s) ==> mapping[s] != k) && !Real(mapping, k) ==> Lookup(r, k) == Lookup(m, k)
  {
    assert Lookup(r, k) == At(m, mapping, mapping.Keys, k);
    forall s | Real(mapping, s) && mapping[s] == k
      ensures Lookup(r, k) == if s in m then Some(m[s]) else Lookup(m, k)
    {
      if s in m {
        assert Moves(m, mapping, mapping.Keys, s);
      }
    }
  }

  /** Renaming and then renaming back restores the payload if and only if no new name was already
      in use, in whatever order the two mappings are walked. */
  lemma InverseRestoresExactly(m: Payload, mapping: Mapping, o: seq<string>, o': seq<string>)
    requires Good(mapping) && IsOrder(mapping, o) && IsOrder(Inverse(mapping), o')
    ensures Apply(Apply(m, mapping, o), Inverse(mapping), o') == m
            <==> forall s :: Real(mapping, s) ==> mapping[s] !in m
  {
    var inv := Inverse(mapping);
    var r := Apply(m, mapping, o);
    var back := Apply(r, inv, o');
    InverseIsGood(mapping);
    ApplyRenames(m, mapping, o);
    ApplyRenames(r, inv, o');
    assert Members(o) == mapping.Keys && Members(o') == inv.Keys;
    if s :| Real(mapping, s) && mapping[s] in m {
      AfterRenaming(back, r, inv, mapping[s]);
    } else {
      forall k ensures Lookup(back, k) == Lookup(m, k) {
        FieldRestored(m, r, back, mapping, k);
      }
      SamePayload(back, m);
    }
  }

  lemma FieldRestored(m: Payload, r: Payload, back: Payload, mapping: Mapping, k: string)
    requires Good(mapping) && Renamed(r, m, mapping, mapping.Keys)
    requires Renamed(back, r, Inverse(mapping), Inverse(mapping).Keys)
    requires forall s :: Real(mapping, s) ==> mapping[s] !in m
    ensures Lookup(back, k) == Lookup(m, k)
  {
    var inv := Inverse(mapping);
    InverseIsGood(mapping);
    AfterRenaming(back, r, inv, k);
    AfterRenaming(r, m, mapping, k);
    if Real(mapping, k) {
      AfterRenaming(r, m, mapping, mapping[k]);
      assert Real(inv, mapping[k]) && inv[mapping[k]] == k;
    }
  }

  // ---- the service's helper ----

  /** A body that is a JSON object, or one that is not. */
  datatype Json = Object(fields: Payload) | Other(text: string)

  /** Walks the mapping in some order and renames in place; anything but an object passes through. */
  method ApplyFieldMapping(body: Json, mapping: Mapping) returns (out: Json, ghost order: seq<string>)
    ensures body.Other? ==> out == body
    ensures IsOrder(mapping, order)
    ensures body.Object? ==> out == Object(Apply(body.fields, mapping, order))
    ensures body.Object? && Good(mapping) ==> Renamed(out.fields, body.fields, mapping, mapping.Keys)
  {
    if body.Other? {
      order := WalkOf(mapping.Keys);
      return body, order;
    }
    if mapping == map[] {
      order := [];
      if Good(mapping) {
        ApplyRenames(body.fields, mapping, order);
        assert Members(order) == mapping.Keys;
      }
      return body, order;
    }
    var m := body.fields;
    order := [];
    var left := mapping.Keys;
    while left != {}
      invariant left <= mapping.Keys
      invariant forall s :: s in order <==> s in mapping && s !in left
      invariant forall i, k :: 0 <= i < k < |order| ==> order[i] != order[k]
      invariant m == Apply(body.fields, mapping, order)
      decreases |left|
    {
      var src :| src in left;
      left := left - {src};
      var tgt := mapping[src];
      if src in m {
        var v := m[src];
        m := m[tgt := v];
        if src != tgt {
          m := m - {src};
        }
      }
      assert (order + [src])[..|order|] == order;
      order := order + [src];
    }
    out := Object(m);
    if Good(mapping) {
      ApplyRenames(body.fields, mapping, order);
      assert Members(order) == mapping.Keys;
    }
  }
}
