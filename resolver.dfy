/** `replaceReferencesInUtilityColors`: the two passes that turn the internal
    references held by utility colours into colour values. Pass 1 replaces every
    private reference by the shade it names; pass 2 then replaces every utility
    reference by the value its target holds at that moment, and throws when that
    value is itself a reference. */
module Resolver {
  import opened Common
  import opened Dicts
  import opened Shades
  import opened Roles
  import opened References
  import opened Themes

  /** Utility colours: a themized colour option per role. */
  type Slots = Dict<Themized<ColorOptions>>

  /** Private colours: the shades of each base colour per variant. */
  type Privates = Dict<Themized<PrivateShades>>

  /** The variants as the literal `['light', 'dark']` lists them. */
  const VARIANTS: seq<Variant> := [Light, Dark]

  /** `Object.entries(colorValues)` of a utility slot: every slot of
      `DEFAULT_UTILITY_COLORS` (and of `DEFAULT_BASE_COLORS`) is written `dark`
      first, and `cloneDeep` and in-place writes keep that key order, so the
      loops over a slot meet dark, then light. */
  const SLOT_ORDER: seq<Variant> := [Dark, Light]

  // ---------------------------------------------------------------------------
  // Pass 1: private references

  /** `privateColors[main]?.[v][shade]?.value || ''`. */
  function ShadeLookup(priv: Privates, v: Variant, t: PrivateTarget): string {
    if t.main in priv.items && t.shade in priv.items[t.main].Get(v)
    then priv.items[t.main].Get(v)[t.shade].value
    else ""
  }

  /** Pass 1 on one option: a private reference becomes the shade it names, with
      the reference kept in `ref`; a malformed one becomes `''` with `ref`
      present but undefined; anything else is left alone. */
  function ResolvePrivate(o: ColorOptions, v: Variant, priv: Privates): ColorOptions {
    if !IsPrivateRef(o.value) then o
    else match ParsePrivateRef(o.value)
      case None => ColorOptions("", UndefinedRef)
      case Some(t) => ColorOptions(ShadeLookup(priv, v, t), RefTo(o.value))
  }

  function ResolvePrivateBoth(x: Themized<ColorOptions>, priv: Privates): Themized<ColorOptions> {
    Themized(ResolvePrivate(x.light, Light, priv), ResolvePrivate(x.dark, Dark, priv))
  }

  /** The result of pass 1: every slot resolved on its own. */
  function PrivatePass(u: Slots, priv: Privates): (r: Slots)
    ensures r.keys == u.keys && r.items.Keys == u.items.Keys
  {
    Dict(u.keys, map k | k in u.items :: ResolvePrivateBoth(u.items[k], priv))
  }

  /** Pass 1 on one role, variant by variant. */
  method ResolvePrivateSlot(x: Themized<ColorOptions>, priv: Privates) returns (slot: Themized<ColorOptions>)
    ensures slot == ResolvePrivateBoth(x, priv)
  {
    slot := x;
    for j := 0 to |SLOT_ORDER|
      invariant forall w :: slot.Get(w) == (if w in SLOT_ORDER[..j] then ResolvePrivate(x.Get(w), w, priv) else x.Get(w))
    {
      var v := SLOT_ORDER[j];
      var o := slot.Get(v);
      if IsPrivateRef(o.value) {
        var newValue := "";
        var ref := UndefinedRef;
        var parsed := ParsePrivateRef(o.value);
        if parsed.Some? {
          newValue := ShadeLookup(priv, v, parsed.value);
          ref := RefTo(o.value);
        }
        slot := slot.Set(v, ColorOptions(newValue, ref));
      }
      assert SLOT_ORDER[..j + 1] == SLOT_ORDER[..j] + [v];
    }
    assert SLOT_ORDER[..2] == SLOT_ORDER;
    assert slot.Get(Light) == ResolvePrivate(x.light, Light, priv);
    assert slot.Get(Dark) == ResolvePrivate(x.dark, Dark, priv);
  }

  /** Pass 1 after the first `i` roles: those resolved, the others as given. */
  ghost function PartialPass(u: Slots, priv: Privates, i: nat): Slots
    requires i <= |u.keys|
  {
    Dict(u.keys, map k | k in u.items :: if k in u.keys[..i] then ResolvePrivateBoth(u.items[k], priv) else u.items[k])
  }

  lemma PartialPassStep(u: Slots, priv: Privates, i: nat)
    requires u.Valid() && i < |u.keys|
    ensures var k := u.keys[i];
      PartialPass(u, priv, i).items[k] == u.items[k] &&
      PartialPass(u, priv, i + 1) == PartialPass(u, priv, i).Put(k, ResolvePrivateBoth(u.items[k], priv))
  {
    var k := u.keys[i];
    assert u.keys[..i + 1] == u.keys[..i] + [k];
    UnprocessedKey(u.keys, i);
  }

  lemma PartialPassDone(u: Slots, priv: Privates)
    requires u.Valid()
    ensures PartialPass(u, priv, |u.keys|) == PrivatePass(u, priv)
  {
    assert u.keys[..|u.keys|] == u.keys;
  }

  /** Pass 1, role by role. */
  method ResolvePrivateRefs(u: Slots, priv: Privates) returns (r: Slots)
    requires u.Valid()
    ensures r == PrivatePass(u, priv)
  {
    r := u;
    assert r == PartialPass(u, priv, 0);
    for i := 0 to |u.keys|
      invariant r == PartialPass(u, priv, i)
    {
      var k := u.keys[i];
      PartialPassStep(u, priv, i);
      var slot := ResolvePrivateSlot(r.items[k], priv);
      r := r.Put(k, slot);
    }
    PartialPassDone(u, priv);
  }

  /** A key of a distinct list is not among the keys before it. */
  lemma UnprocessedKey(keys: seq<string>, i: nat)
    requires Distinct(keys) && i < |keys|
    ensures keys[i] !in keys[..i]
  {
  }

  // ---------------------------------------------------------------------------
  // Pass 2: utility references

  /** The (role, variant) pairs pass 2 visits, in order: role by role, each
      slot in its key order, dark then light. */
  function Work(keys: seq<string>): (w: seq<(string, Variant)>)
    ensures |w| == 2 * |keys|
    ensures forall i | 0 <= i < |keys| :: w[2 * i] == (keys[i], Dark) && w[2 * i + 1] == (keys[i], Light)
  {
    if |keys| == 0 then []
    else
      var rest := Work(keys[1..]);
      assert forall i | 1 <= i < |keys| :: keys[i] == keys[1..][i - 1];
      [(keys[0], Dark), (keys[0], Light)] + rest
  }

  /** Pass 2 on one slot, reading the current state: a utility reference takes
      the value its target holds now, unless that value is itself a reference
      (`CircularReference` of the slot's role); a reference to a role missing
      from the record fails as the property read on `undefined` does. */
  function UtilityStep(r: Slots, k: string, v: Variant): (res: Result<Slots>)
    requires r.Valid()
    ensures res.Ok? ==> res.value.keys == r.keys && res.value.items.Keys == r.items.Keys && res.value.Valid()
  {
    if k !in r.items then Err(UndefinedSlot(k))
    else
      var o := r.items[k].Get(v);
      if !IsUtilityRef(o.value) then Ok(r)
      else match ParseUtilityRef(o.value)
        case None => Ok(r.Put(k, r.items[k].Set(v, ColorOptions("", UndefinedRef))))
        case Some(target) =>
          if target !in r.items then Err(UndefinedSlot(target))
          else
            var nv := r.items[target].Get(v).value;
            if IsPrivateRef(nv) || IsUtilityRef(nv) then Err(CircularReference(k))
            else Ok(r.Put(k, r.items[k].Set(v, ColorOptions(nv, RefTo(o.value)))))
  }

  /** Pass 2 over a list of visits, stopping at the first error. */
  function UtilityPass(r: Slots, work: seq<(string, Variant)>): (res: Result<Slots>)
    requires r.Valid()
    ensures res.Ok? ==> res.value.keys == r.keys && res.value.items.Keys == r.items.Keys && res.value.Valid()
    decreases |work|
  {
    if |work| == 0 then Ok(r)
    else match UtilityStep(r, work[0].0, work[0].1)
      case Err(e) => Err(e)
      case Ok(r1) => UtilityPass(r1, work[1..])
  }

  /** The resolver: pass 1, then pass 2 over the roles in record order. */
  function ResolveSpec(u: Slots, priv: Privates): Result<Slots>
    requires u.Valid()
  {
    UtilityPass(PrivatePass(u, priv), Work(u.keys))
  }

  /** Pass 2 on one slot. */
  method VisitSlot(r: Slots, k: string, v: Variant) returns (res: Result<Slots>)
    requires r.Valid() && k in r.items
    ensures res == UtilityStep(r, k, v)
  {
    var o := r.items[k].Get(v);
    if !IsUtilityRef(o.value) {
      return Ok(r);
    }
    var newValue := "";
    var ref := UndefinedRef;
    var target := ParseUtilityRef(o.value);
    if target.Some? {
      if target.value !in r.items {
        return Err(UndefinedSlot(target.value));
      }
      newValue := r.items[target.value].Get(v).value;
      if IsPrivateRef(newValue) || IsUtilityRef(newValue) {
        return Err(CircularReference(k));
      }
      ref := RefTo(o.value);
    }
    return Ok(r.Put(k, r.items[k].Set(v, ColorOptions(newValue, ref))));
  }

  /** Visit `2 i + j` is variant `j` of role `i`. */
  lemma WorkAt(keys: seq<string>, i: nat, j: nat)
    requires i < |keys| && j < |SLOT_ORDER|
    ensures 2 * i + j < |Work(keys)| && Work(keys)[2 * i + j] == (keys[i], SLOT_ORDER[j])
  {
  }

  /** The visits from role `i` on are the visits of the roles from `i` on. */
  lemma {:induction false} WorkSuffix(keys: seq<string>, i: nat)
    requires i <= |keys|
    ensures Work(keys)[2 * i..] == Work(keys[i..])
    decreases i
  {
    if i > 0 {
      WorkSuffix(keys[1..], i - 1);
      assert keys[1..][i - 1..] == keys[i..];
      assert Work(keys) == RoleWork(keys[0]) + Work(keys[1..]);
    }
  }

  /** The two visits of role `i` come next after the visits of the roles before it. */
  lemma WorkOfRole(keys: seq<string>, i: nat)
    requires i < |keys|
    ensures Work(keys)[2 * i..] == RoleWork(keys[i]) + Work(keys)[2 * i + 2..]
  {
    WorkSuffix(keys, i);
    WorkSuffix(keys, i + 1);
    assert keys[i..][1..] == keys[i + 1..];
    assert Work(keys[i..]) == RoleWork(keys[i]) + Work(keys[i..][1..]);
  }

  /** Pass 2 visits every slot of the record. */
  lemma WorkCovers(u: Slots)
    requires u.Valid()
    ensures forall k, v | k in u.items :: (k, v) in Work(u.keys)
  {
    forall k, v | k in u.items ensures (k, v) in Work(u.keys) {
      var i :| 0 <= i < |u.keys| && u.keys[i] == k;
      var j := if v == Dark then 0 else 1;
      WorkAt(u.keys, i, j);
    }
  }

  /** Running pass 2 over two lists of visits is running it over the first,
      then over the second from where the first left off. */
  lemma {:induction false} PassAppend(r: Slots, a: seq<(string, Variant)>, b: seq<(string, Variant)>)
    requires r.Valid()
    ensures UtilityPass(r, a + b) ==
      match UtilityPass(r, a)
      case Err(e) => Err(e)
      case Ok(r1) => UtilityPass(r1, b)
    decreases |a|
  {
    if |a| == 0 {
      assert a + b == b;
    } else {
      assert (a + b)[0] == a[0] && (a + b)[1..] == a[1..] + b;
      match UtilityStep(r, a[0].0, a[0].1)
      case Err(e) =>
      case Ok(r1) => PassAppend(r1, a[1..], b);
    }
  }

  /** The visits of one role: dark, then light. */
  function RoleWork(k: string): seq<(string, Variant)> {
    [(k, Dark), (k, Light)]
  }

  /** Pass 2 on the two variants of one role (the inner loop). */
  method VisitRole(r: Slots, k: string) returns (res: Result<Slots>)
    requires r.Valid() && k in r.items
    ensures res == UtilityPass(r, RoleWork(k))
  {
    var cur := r;
    for j := 0 to |SLOT_ORDER|
      invariant cur.Valid() && cur.items.Keys == r.items.Keys
      invariant UtilityPass(r, RoleWork(k)) == UtilityPass(cur, RoleWork(k)[j..])
    {
      var step := VisitSlot(cur, k, SLOT_ORDER[j]);
      PassUnfold(cur, RoleWork(k), j);
      if step.Err? {
        return step;
      }
      cur := step.value;
    }
    return Ok(cur);
  }

  /** Pass 2, role by role and variant by variant, on the record pass 1 left. */
  method ResolveUtilityRefs(r0: Slots) returns (res: Result<Slots>)
    requires r0.Valid()
    ensures res == UtilityPass(r0, Work(r0.keys))
  {
    var work := Work(r0.keys);
    var r := r0;
    for i := 0 to |r0.keys|
      invariant r.keys == r0.keys && r.items.Keys == r0.items.Keys && r.Valid()
      invariant UtilityPass(r0, work) == UtilityPass(r, work[2 * i..])
    {
      var k := r0.keys[i];
      WorkOfRole(r0.keys, i);
      PassAppend(r, RoleWork(k), work[2 * i + 2..]);
      var step := VisitRole(r, k);
      if step.Err? {
        return step;
      }
      r := step.value;
    }
    return Ok(r);
  }

  /** One visit of pass 2, then the rest. */
  lemma PassUnfold(r: Slots, work: seq<(string, Variant)>, m: nat)
    requires r.Valid() && m < |work|
    ensures var step := UtilityStep(r, work[m].0, work[m].1);
      UtilityPass(r, work[m..]) == if step.Err? then Err(step.error) else UtilityPass(step.value, work[m + 1..])
  {
    assert work[m..][1..] == work[m + 1..];
  }

  /** `replaceReferencesInUtilityColors`. */
  method ResolveReferences(u: Slots, priv: Privates) returns (res: Result<Slots>)
    requires u.Valid()
    ensures res == ResolveSpec(u, priv)
  {
    var r := ResolvePrivateRefs(u, priv);
    res := ResolveUtilityRefs(r);
  }

  // ---------------------------------------------------------------------------
  // Properties

  /** A visit changes at most the slot it visits. */
  lemma StepOtherSlot(r: Slots, k': string, v': Variant, k: string, v: Variant)
    requires r.Valid() && k in r.items && UtilityStep(r, k', v').Ok?
    requires (k', v') != (k, v) || !IsUtilityRef(r.items[k].Get(v).value)
    ensures UtilityStep(r, k', v').value.items[k].Get(v) == r.items[k].Get(v)
  {
  }

  /** Pass 2 leaves alone every slot that does not hold a utility reference. */
  lemma {:induction false} PassKeepsPlain(r: Slots, work: seq<(string, Variant)>, k: string, v: Variant)
    requires r.Valid() && k in r.items && UtilityPass(r, work).Ok?
    requires !IsUtilityRef(r.items[k].Get(v).value)
    ensures UtilityPass(r, work).value.items[k].Get(v) == r.items[k].Get(v)
    decreases |work|
  {
    if |work| > 0 {
      var r1 := UtilityStep(r, work[0].0, work[0].1).value;
      StepOtherSlot(r, work[0].0, work[0].1, k, v);
      PassKeepsPlain(r1, work[1..], k, v);
    }
  }

  /** A slot holding neither kind of reference comes out of the resolver as it went in. */
  lemma UnreferencedUntouched(u: Slots, priv: Privates, k: string, v: Variant)
    requires u.Valid() && k in u.items && ResolveSpec(u, priv).Ok?
    requires !IsPrivateRef(u.items[k].Get(v).value) && !IsUtilityRef(u.items[k].Get(v).value)
    ensures ResolveSpec(u, priv).value.items[k].Get(v) == u.items[k].Get(v)
  {
    var r := PrivatePass(u, priv);
    assert r.items[k].Get(v) == u.items[k].Get(v);
    PassKeepsPlain(r, Work(u.keys), k, v);
  }

  /** A private reference to a known shade resolves to that shade's value (or
      `''` when the base colour or shade is missing), with the reference kept,
      provided the shade's value is not itself a utility reference. */
  lemma PrivateRefResolved(u: Slots, priv: Privates, k: string, v: Variant, main: string, t: Shade)
    requires u.Valid() && k in u.items && ResolveSpec(u, priv).Ok?
    requires '.' !in main && t in ALL_PRIVATE
    requires u.items[k].Get(v).value == PrivateRef(main, t.Name())
    requires !IsUtilityRef(ShadeLookup(priv, v, PrivateTarget(main, t)))
    ensures ResolveSpec(u, priv).value.items[k].Get(v) ==
      ColorOptions(ShadeLookup(priv, v, PrivateTarget(main, t)), RefTo(PrivateRef(main, t.Name())))
  {
    ParsePrivateRefRoundTrip(main, t);
    ParsePrivateRefSound(PrivateRef(main, t.Name()));
    var r := PrivatePass(u, priv);
    assert r.items[k].Get(v) == ColorOptions(ShadeLookup(priv, v, PrivateTarget(main, t)), RefTo(PrivateRef(main, t.Name())));
    PassKeepsPlain(r, Work(u.keys), k, v);
  }

  /** A role whose slot refers to the role itself makes the resolver throw. */
  lemma SelfReferenceFails(u: Slots, priv: Privates, k: string, v: Variant)
    requires u.Valid() && k in u.items && IsRole(k)
    requires u.items[k].Get(v).value == UtilityRef(k)
    ensures ResolveSpec(u, priv).Err?
  {
    ParseUtilityRefRoundTrip(k);
    ParseUtilityRefSound(UtilityRef(k));
    RefKindsExclusive(UtilityRef(k));
    var r := PrivatePass(u, priv);
    assert r.items[k].Get(v) == u.items[k].Get(v);
    var i :| 0 <= i < |u.keys| && u.keys[i] == k;
    var work := Work(u.keys);
    assert (k, v) in work by {
      if v == Dark { assert work[2 * i] == (k, v); } else { assert work[2 * i + 1] == (k, v); }
    }
    PassSelfFails(r, work, k, v);
  }

  lemma {:induction false} PassSelfFails(r: Slots, work: seq<(string, Variant)>, k: string, v: Variant)
    requires r.Valid() && k in r.items && (k, v) in work
    requires ParseUtilityRef(r.items[k].Get(v).value) == Some(k) && IsUtilityRef(r.items[k].Get(v).value)
    ensures UtilityPass(r, work).Err?
    decreases |work|
  {
    if work[0] == (k, v) {
      SelfStepFails(r, k, v);
    } else {
      var step := UtilityStep(r, work[0].0, work[0].1);
      if step.Ok? {
        StepOtherSlot(r, work[0].0, work[0].1, k, v);
        InTail(work, (k, v));
        PassSelfFails(step.value, work[1..], k, v);
      }
    }
  }

  /** The visit of a slot referring to a role whose slot is itself a utility
      reference throws. */
  lemma MutualStepFails(r: Slots, k: string, v: Variant, target: string)
    requires r.Valid() && k in r.items && target in r.items
    requires IsUtilityRef(r.items[k].Get(v).value) && ParseUtilityRef(r.items[k].Get(v).value) == Some(target)
    requires IsUtilityRef(r.items[target].Get(v).value)
    ensures UtilityStep(r, k, v) == Err(CircularReference(k))
  {
  }

  lemma SelfStepFails(r: Slots, k: string, v: Variant)
    requires r.Valid() && k in r.items
    requires ParseUtilityRef(r.items[k].Get(v).value) == Some(k) && IsUtilityRef(r.items[k].Get(v).value)
    ensures UtilityStep(r, k, v) == Err(CircularReference(k))
  {
  }


  /** Two roles whose slots refer to each other make the resolver throw, and
      unless a visit before theirs has already thrown, the error names the
      role of the two that comes first in record order. */
  lemma MutualReferenceFails(u: Slots, priv: Privates, a: string, b: string, v: Variant, i: nat, j: nat)
    requires u.Valid() && i < j < |u.keys| && u.keys[i] == a && u.keys[j] == b
    requires IsRole(a) && IsRole(b)
    requires u.items[a].Get(v).value == UtilityRef(b) && u.items[b].Get(v).value == UtilityRef(a)
    ensures ResolveSpec(u, priv).Err?
    ensures var m := if v == Dark then 2 * i else 2 * i + 1;
      UtilityPass(PrivatePass(u, priv), Work(u.keys)[..m]).Ok? ==>
        ResolveSpec(u, priv) == Err(CircularReference(a))
  {
    ParseUtilityRefRoundTrip(a);
    ParseUtilityRefRoundTrip(b);
    RefKindsExclusive(UtilityRef(a));
    RefKindsExclusive(UtilityRef(b));
    MutualRefsFail(u, priv, a, b, v, i, j);
  }

  /** `MutualReferenceFails` on the parsed form of the two references. */
  lemma MutualRefsFail(u: Slots, priv: Privates, a: string, b: string, v: Variant, i: nat, j: nat)
    requires u.Valid() && i < j < |u.keys| && u.keys[i] == a && u.keys[j] == b
    requires IsUtilityRef(u.items[a].Get(v).value) && ParseUtilityRef(u.items[a].Get(v).value) == Some(b)
    requires IsUtilityRef(u.items[b].Get(v).value) && ParseUtilityRef(u.items[b].Get(v).value) == Some(a)
    requires !IsPrivateRef(u.items[a].Get(v).value) && !IsPrivateRef(u.items[b].Get(v).value)
    ensures ResolveSpec(u, priv).Err?
    ensures var m := if v == Dark then 2 * i else 2 * i + 1;
      UtilityPass(PrivatePass(u, priv), Work(u.keys)[..m]).Ok? ==>
        ResolveSpec(u, priv) == Err(CircularReference(a))
  {
    var r := PrivatePass(u, priv);
    PrivatePassKeeps(u, priv, a, v);
    PrivatePassKeeps(u, priv, b, v);
    var m := if v == Dark then 2 * i else 2 * i + 1;
    MutualWork(u.keys, i, j, v, m);
    PassMutualFails(r, Work(u.keys), a, b, v, m);
  }

  /** Pass 1 leaves a slot that is not a private reference as it is. */
  lemma PrivatePassKeeps(u: Slots, priv: Privates, k: string, v: Variant)
    requires k in u.items && !IsPrivateRef(u.items[k].Get(v).value)
    ensures k in PrivatePass(u, priv).items && PrivatePass(u, priv).items[k].Get(v) == u.items[k].Get(v)
  {
  }

  /** Where pass 2 first visits role `i` or role `j > i` in variant `v`. */
  lemma MutualWork(keys: seq<string>, i: nat, j: nat, v: Variant, m: nat)
    requires Distinct(keys) && i < j < |keys| && m == (if v == Dark then 2 * i else 2 * i + 1)
    ensures m < |Work(keys)| && Work(keys)[m] == (keys[i], v)
    ensures forall n | 0 <= n < m :: Work(keys)[n] != (keys[i], v) && Work(keys)[n] != (keys[j], v)
  {
    var c := if v == Dark then 0 else 1;
    WorkAt(keys, i, c);
    assert SLOT_ORDER[c] == v;
    forall n | 0 <= n < m ensures Work(keys)[n] != (keys[i], v) && Work(keys)[n] != (keys[j], v) {
      EarlierVisit(keys, i, j, c, n);
    }
  }

  /** A visit before variant `c` of role `i` is of neither role `i` in variant
      `c` nor of any later role. */
  lemma EarlierVisit(keys: seq<string>, i: nat, j: nat, c: nat, n: nat)
    requires Distinct(keys) && i < j < |keys| && c < |SLOT_ORDER| && n < 2 * i + c
    ensures Work(keys)[n] != (keys[i], SLOT_ORDER[c]) && Work(keys)[n].0 != keys[j]
  {
    var q, s := n / 2, n % 2;
    assert n == 2 * q + s;
    WorkAt(keys, q, s);
    if q < i {
      assert keys[q] != keys[i] && keys[q] != keys[j];
    } else {
      assert SLOT_ORDER[s] != SLOT_ORDER[c];
    }
  }

  /** Pass 2 meets the first of two mutually referring slots while both still
      hold their references, and that visit throws. */
  lemma {:induction false} PassMutualFails(r: Slots, work: seq<(string, Variant)>, a: string, b: string, v: Variant, m: nat)
    requires r.Valid() && a in r.items && b in r.items
    requires IsUtilityRef(r.items[a].Get(v).value) && ParseUtilityRef(r.items[a].Get(v).value) == Some(b)
    requires IsUtilityRef(r.items[b].Get(v).value) && ParseUtilityRef(r.items[b].Get(v).value) == Some(a)
    requires m < |work| && (work[m] == (a, v) || work[m] == (b, v))
    requires forall n | 0 <= n < m :: work[n] != (a, v) && work[n] != (b, v)
    ensures UtilityPass(r, work).Err?
    ensures UtilityPass(r, work[..m]).Ok? ==> UtilityPass(r, work) == Err(CircularReference(work[m].0))
    decreases m
  {
    var step := UtilityStep(r, work[0].0, work[0].1);
    if m == 0 {
      MutualStepFails(r, work[0].0, work[0].1, if work[0].0 == a then b else a);
      assert UtilityPass(r, work) == Err(CircularReference(work[0].0));
    } else {
      assert work[..m][0] == work[0];
      if step.Ok? {
        StepOtherSlot(r, work[0].0, work[0].1, a, v);
        StepOtherSlot(r, work[0].0, work[0].1, b, v);
        assert work[..m][1..] == work[1..][..m - 1];
        PassMutualFails(step.value, work[1..], a, b, v, m - 1);
      }
    }
  }
  lemma InTail<T>(s: seq<T>, x: T)
    requires x in s && s[0] != x
    ensures x in s[1..]
  {
    var m :| 0 <= m < |s| && s[m] == x;
    assert s[1..][m - 1] == x;
  }

  /** Utility colours none of whose values is a private reference. */
  predicate NoPrivateRefs(r: Slots) {
    forall k, v | k in r.items :: !IsPrivateRef(r.items[k].Get(v).value)
  }

  /** Private colours none of whose shade values is a reference of either kind. */
  predicate ShadesAreColors(priv: Privates) {
    forall m, v, t | m in priv.items && t in priv.items[m].Get(v) ::
      !IsPrivateRef(priv.items[m].Get(v)[t].value) && !IsUtilityRef(priv.items[m].Get(v)[t].value)
  }

  /** After pass 1 no private reference is left, when the shades hold colours. */
  lemma PrivatePassClean(u: Slots, priv: Privates)
    requires ShadesAreColors(priv)
    ensures NoPrivateRefs(PrivatePass(u, priv))
    ensures forall k, v | k in u.items && IsUtilityRef(PrivatePass(u, priv).items[k].Get(v).value) ::
      PrivatePass(u, priv).items[k].Get(v) == u.items[k].Get(v)
  {
    var r := PrivatePass(u, priv);
    forall k, v | k in r.items ensures !IsPrivateRef(r.items[k].Get(v).value) {
      var o := u.items[k].Get(v);
      assert r.items[k].Get(v) == ResolvePrivate(o, v, priv);
    }
  }

  /** Pass 2 leaves no utility reference in a visited slot and creates no private one. */
  lemma {:induction false} PassClean(r: Slots, work: seq<(string, Variant)>)
    requires r.Valid() && NoPrivateRefs(r) && UtilityPass(r, work).Ok?
    ensures NoPrivateRefs(UtilityPass(r, work).value)
    ensures forall k, v | (k, v) in work && k in r.items :: !IsUtilityRef(UtilityPass(r, work).value.items[k].Get(v).value)
    decreases |work|
  {
    if |work| > 0 {
      var r1 := UtilityStep(r, work[0].0, work[0].1).value;
      var k0, v0 := work[0].0, work[0].1;
      assert NoPrivateRefs(r1) by {
        forall k, v | k in r1.items ensures !IsPrivateRef(r1.items[k].Get(v).value) {
          if (k, v) != (k0, v0) || !IsUtilityRef(r.items[k].Get(v).value) {
            StepOtherSlot(r, k0, v0, k, v);
          }
        }
      }
      assert !IsUtilityRef(r1.items[k0].Get(v0).value);
      PassClean(r1, work[1..]);
      PassKeepsPlain(r1, work[1..], k0, v0);
      forall k, v | (k, v) in work && k in r.items
        ensures !IsUtilityRef(UtilityPass(r, work).value.items[k].Get(v).value)
      {
        if (k, v) != (k0, v0) {
          var m :| 0 <= m < |work| && work[m] == (k, v);
          assert work[1..][m - 1] == (k, v);
        }
      }
    }
  }

  /** When every shade holds a colour, a successful resolution leaves no
      reference of either kind anywhere in the utility colours. */
  lemma ResolvedHasNoReferences(u: Slots, priv: Privates)
    requires u.Valid() && ShadesAreColors(priv) && ResolveSpec(u, priv).Ok?
    ensures var out := ResolveSpec(u, priv).value;
      out.keys == u.keys &&
      forall k, v | k in out.items :: !IsPrivateRef(out.items[k].Get(v).value) && !IsUtilityRef(out.items[k].Get(v).value)
  {
    var r := PrivatePass(u, priv);
    var work := Work(u.keys);
    PrivatePassClean(u, priv);
    PassClean(r, work);
    WorkCovers(u);
  }

  /** Private colours none of whose shade values is a utility reference. */
  predicate NoUtilityShades(priv: Privates) {
    forall m, v, t | m in priv.items && t in priv.items[m].Get(v) :: !IsUtilityRef(priv.items[m].Get(v)[t].value)
  }

  /** Every visit of pass 2 names a role of the record. */
  lemma WorkInRecord(u: Slots)
    requires u.Valid()
    ensures forall p | p in Work(u.keys) :: p.0 in u.items
  {
    var w := Work(u.keys);
    forall p | p in w ensures p.0 in u.items {
      var m :| 0 <= m < |w| && w[m] == p;
      var i := m / 2;
      if m % 2 == 0 {
        assert w[2 * i] == (u.keys[i], Dark);
      } else {
        assert w[2 * i + 1] == (u.keys[i], Light);
      }
    }
  }

  /** Pass 2 over a record without utility references changes nothing. */
  lemma {:induction false} PassIdle(r: Slots, work: seq<(string, Variant)>)
    requires r.Valid()
    requires forall p | p in work :: p.0 in r.items
    requires forall k, v | k in r.items :: !IsUtilityRef(r.items[k].Get(v).value)
    ensures UtilityPass(r, work) == Ok(r)
    decreases |work|
  {
    if |work| > 0 {
      assert UtilityStep(r, work[0].0, work[0].1) == Ok(r);
      assert forall p | p in work[1..] :: p in work;
      PassIdle(r, work[1..]);
    }
  }

  /** Without a utility reference in the table or among the shades, the
      resolver cannot throw: it returns what pass 1 made. */
  lemma ResolveWithoutUtilityRefs(u: Slots, priv: Privates)
    requires u.Valid() && NoUtilityShades(priv)
    requires forall k, v | k in u.items :: !IsUtilityRef(u.items[k].Get(v).value)
    ensures ResolveSpec(u, priv) == Ok(PrivatePass(u, priv))
  {
    var r := PrivatePass(u, priv);
    forall k, v | k in r.items ensures !IsUtilityRef(r.items[k].Get(v).value) {
      assert r.items[k].Get(v) == ResolvePrivate(u.items[k].Get(v), v, priv);
    }
    WorkInRecord(u);
    PassIdle(r, Work(u.keys));
  }

  /** The same plain value in both variants. */
  function Both(s: string): Themized<ColorOptions> {
    Themized(Plain(s), Plain(s))
  }

  /** Utility colours `a → b → c` with `c` holding the colour `x`, declared in the order `keys`. */
  function Chain(keys: seq<string>, a: string, b: string, c: string, x: string): Slots {
    Dict(keys, map[a := Both(UtilityRef(b)), b := Both(UtilityRef(c)), c := Both(x)])
  }

  /** A visit of a slot that holds no utility reference changes nothing. */
  lemma StepPlain(r: Slots, k: string, v: Variant)
    requires r.Valid() && k in r.items && !IsUtilityRef(r.items[k].Get(v).value)
    ensures UtilityStep(r, k, v) == Ok(r)
  {
  }

  /** A visit of a slot that refers to a present role reads that role's current value. */
  lemma StepReads(r: Slots, k: string, v: Variant, target: string)
    requires r.Valid() && k in r.items && target in r.items
    requires IsUtilityRef(r.items[k].Get(v).value) && ParseUtilityRef(r.items[k].Get(v).value) == Some(target)
    ensures var o, nv := r.items[k].Get(v), r.items[target].Get(v).value;
      UtilityStep(r, k, v) ==
        if IsPrivateRef(nv) || IsUtilityRef(nv) then Err(CircularReference(k))
        else Ok(r.Put(k, r.items[k].Set(v, ColorOptions(nv, RefTo(o.value)))))
  {
  }

  /** `rb` and `rc` are utility references to `b` and `c`, and `x` is no reference. */
  predicate ChainParses(rb: string, b: string, rc: string, c: string, x: string) {
    ParseUtilityRef(rb) == Some(b) && IsUtilityRef(rb) && !IsPrivateRef(rb) &&
    ParseUtilityRef(rc) == Some(c) && IsUtilityRef(rc) && !IsPrivateRef(rc) &&
    !IsPrivateRef(x) && !IsUtilityRef(x)
  }

  lemma ChainRefs(b: string, c: string, x: string)
    requires IsRole(b) && IsRole(c)
    requires !IsPrivateRef(x) && !IsUtilityRef(x)
    ensures ChainParses(UtilityRef(b), b, UtilityRef(c), c, x)
  {
    ParseUtilityRefRoundTrip(b);
    ParseUtilityRefSound(UtilityRef(b));
    RefKindsExclusive(UtilityRef(b));
    ParseUtilityRefRoundTrip(c);
    ParseUtilityRefSound(UtilityRef(c));
    RefKindsExclusive(UtilityRef(c));
  }

  /** Pass 1 leaves a record without private references as it is. */
  lemma PrivatePassIdle(u: Slots, priv: Privates)
    requires forall k, v | k in u.items :: !IsPrivateRef(u.items[k].Get(v).value)
    ensures PrivatePass(u, priv) == u
  {
    var r := PrivatePass(u, priv);
    forall k | k in u.items ensures r.items[k] == u.items[k] {
      assert !IsPrivateRef(u.items[k].Get(Light).value) && !IsPrivateRef(u.items[k].Get(Dark).value);
    }
    SameMap(r.items, u.items);
  }

  /** A chain record is valid and has no private reference. */
  lemma ChainPrivateIdle(u: Slots, a: string, rb: string, b: string, rc: string, c: string, x: string, priv: Privates)
    requires ChainParses(rb, b, rc, c, x) && a != b && b != c && a != c
    requires u.items == map[a := Both(rb), b := Both(rc), c := Both(x)]
    requires u.keys == [a, b, c] || u.keys == [c, b, a]
    ensures u.Valid() && PrivatePass(u, priv) == u
  {
    forall k, v | k in u.items ensures !IsPrivateRef(u.items[k].Get(v).value) {
      assert u.items[k].Get(v).value in {rb, rc, x};
    }
    PrivatePassIdle(u, priv);
  }

  /** A two-hop chain resolves when the middle role is declared before the
      first: by then the middle role already holds the colour. */
  lemma ChainResolvedWhenTargetFirst(a: string, b: string, c: string, x: string, priv: Privates)
    requires IsRole(a) && IsRole(b) && IsRole(c) && a != b && b != c && a != c
    requires !IsPrivateRef(x) && !IsUtilityRef(x)
    ensures Chain([c, b, a], a, b, c, x).Valid()
    ensures var res := ResolveSpec(Chain([c, b, a], a, b, c, x), priv);
      res.Ok? && res.value.items[a] == Themized(ColorOptions(x, RefTo(UtilityRef(b))), ColorOptions(x, RefTo(UtilityRef(b))))
  {
    ChainRefs(b, c, x);
    ChainForward(a, UtilityRef(b), b, UtilityRef(c), c, x, priv);
  }

  lemma ChainForward(a: string, rb: string, b: string, rc: string, c: string, x: string, priv: Privates)
    requires ChainParses(rb, b, rc, c, x) && a != b && b != c && a != c
    ensures var u := Dict([c, b, a], map[a := Both(rb), b := Both(rc), c := Both(x)]);
      var res := ResolveSpec(u, priv);
      u.Valid() && res.Ok? && res.value.items[a] == Themized(ColorOptions(x, RefTo(rb)), ColorOptions(x, RefTo(rb)))
  {
    var u := Dict([c, b, a], map[a := Both(rb), b := Both(rc), c := Both(x)]);
    ChainPrivateIdle(u, a, rb, b, rc, c, x, priv);
    ChainForwardHead(a, rb, b, rc, c, x);
    ChainForwardTail(a, rb, b, rc, c, x);
  }

  /** The first four visits: `c` is left alone, `b` takes the colour. */
  lemma {:induction false} ChainForwardHead(a: string, rb: string, b: string, rc: string, c: string, x: string)
    requires ChainParses(rb, b, rc, c, x) && a != b && b != c && a != c
    ensures var u := Dict([c, b, a], map[a := Both(rb), b := Both(rc), c := Both(x)]);
      var ob := ColorOptions(x, RefTo(rc));
      u.Valid() && UtilityPass(u, Work(u.keys)) == UtilityPass(u.Put(b, Themized(ob, ob)), Work(u.keys)[4..])
  {
    ChainSkipsTarget(a, rb, b, rc, c, x);
    ChainFillsMiddle(a, rb, b, rc, c, x);
  }

  /** The first two visits leave `c`, which holds a colour, alone. */
  lemma ChainSkipsTarget(a: string, rb: string, b: string, rc: string, c: string, x: string)
    requires ChainParses(rb, b, rc, c, x) && a != b && b != c && a != c
    ensures var u := Dict([c, b, a], map[a := Both(rb), b := Both(rc), c := Both(x)]);
      u.Valid() && UtilityPass(u, Work(u.keys)) == UtilityPass(u, Work(u.keys)[2..])
  {
    var u := Dict([c, b, a], map[a := Both(rb), b := Both(rc), c := Both(x)]);
    assert u.Valid();
    var work := Work(u.keys);
    StepPlain(u, c, Light);
    StepPlain(u, c, Dark);
    PassUnfold(u, work, 0);
    PassUnfold(u, work, 1);
  }

  /** Visits three and four copy the colour of `c` into `b`. */
  lemma ChainFillsMiddle(a: string, rb: string, b: string, rc: string, c: string, x: string)
    requires ChainParses(rb, b, rc, c, x) && a != b && b != c && a != c
    ensures var u := Dict([c, b, a], map[a := Both(rb), b := Both(rc), c := Both(x)]);
      var ob := ColorOptions(x, RefTo(rc));
      u.Valid() && UtilityPass(u, Work(u.keys)[2..]) == UtilityPass(u.Put(b, Themized(ob, ob)), Work(u.keys)[4..])
  {
    var u := Dict([c, b, a], map[a := Both(rb), b := Both(rc), c := Both(x)]);
    assert u.Valid();
    var work := Work(u.keys);
    var ob := ColorOptions(x, RefTo(rc));
    var r1 := u.Put(b, Themized(Plain(rc), ob));
    PutPut(u, b, Themized(Plain(rc), ob), Themized(ob, ob));
    StepReads(u, b, Dark, c);
    StepReads(r1, b, Light, c);
    PassUnfold(u, work, 2);
    PassUnfold(r1, work, 3);
  }

  /** The last two visits: `a` reads the colour `b` now holds. */
  lemma {:induction false} ChainForwardTail(a: string, rb: string, b: string, rc: string, c: string, x: string)
    requires ChainParses(rb, b, rc, c, x) && a != b && b != c && a != c
    ensures var u := Dict([c, b, a], map[a := Both(rb), b := Both(rc), c := Both(x)]);
      var ob := ColorOptions(x, RefTo(rc));
      var r2 := u.Put(b, Themized(ob, ob));
      var res := UtilityPass(r2, Work(u.keys)[4..]);
      r2.Valid() && res.Ok? && res.value.items[a] == Themized(ColorOptions(x, RefTo(rb)), ColorOptions(x, RefTo(rb)))
  {
    var u := Dict([c, b, a], map[a := Both(rb), b := Both(rc), c := Both(x)]);
    assert u.Valid();
    var work := Work(u.keys);
    var ob, oa := ColorOptions(x, RefTo(rc)), ColorOptions(x, RefTo(rb));
    var r2 := u.Put(b, Themized(ob, ob));
    var r3 := r2.Put(a, Themized(Plain(rb), oa));
    StepReads(r2, a, Dark, b);
    StepReads(r3, a, Light, b);
    PassUnfold(r2, work, 4);
    PassUnfold(r3, work, 5);
    assert work[6..] == [];
    assert work[4..][1..] == work[5..];
  }

  /** The same chain declared first-role-first is rejected as circular: the
      middle role still holds a reference when the first role reads it. */
  lemma ChainRejectedWhenSourceFirst(a: string, b: string, c: string, x: string, priv: Privates)
    requires IsRole(a) && IsRole(b) && IsRole(c) && a != b && b != c && a != c
    requires !IsPrivateRef(x) && !IsUtilityRef(x)
    ensures Chain([a, b, c], a, b, c, x).Valid()
    ensures ResolveSpec(Chain([a, b, c], a, b, c, x), priv) == Err(CircularReference(a))
  {
    ChainRefs(b, c, x);
    ChainBackward(a, UtilityRef(b), b, UtilityRef(c), c, x, priv);
  }

  lemma {:induction false} ChainBackward(a: string, rb: string, b: string, rc: string, c: string, x: string, priv: Privates)
    requires ChainParses(rb, b, rc, c, x) && a != b && b != c && a != c
    ensures var u := Dict([a, b, c], map[a := Both(rb), b := Both(rc), c := Both(x)]);
      u.Valid() && ResolveSpec(u, priv) == Err(CircularReference(a))
  {
    var u := Dict([a, b, c], map[a := Both(rb), b := Both(rc), c := Both(x)]);
    ChainPrivateIdle(u, a, rb, b, rc, c, x, priv);
    StepReads(u, a, Dark, b);
    PassUnfold(u, Work(u.keys), 0);
  }
}
