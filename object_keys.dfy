/** The order in which `Object.keys` and `Object.values` list the own properties of a plain object
    such as the servers' `rooms`: keys that are canonical array indices first, by ascending value,
    then every other string key in the order it was first added. Reassigning an existing key
    keeps its place. */
module ObjectKeys {
  import opened JsText

  /** A canonical array index: decimal digits without a leading zero (except `0` itself) whose
      value is below 2^32 - 1. */
  predicate IsIndexKey(k: string)
  {
    |k| >= 1 && AllDigits(k) && (k[0] != '0' || |k| == 1) && ParseNat(k) < 0xFFFF_FFFF
  }

  /** The listing order: no index key after a non-index key, and index keys ascending. */
  predicate KeysOrdered(keys: seq<string>)
  {
    forall i, j :: 0 <= i < j < |keys| && IsIndexKey(keys[j]) ==>
      IsIndexKey(keys[i]) && ParseNat(keys[i]) <= ParseNat(keys[j])
  }

  predicate Distinct(keys: seq<string>)
  {
    forall i, j :: 0 <= i < j < |keys| ==> keys[i] != keys[j]
  }

  /** The first position that is not an index key of value at most `v`. */
  function IndexPosition(keys: seq<string>, v: nat): (p: nat)
    ensures p <= |keys|
    ensures forall i :: 0 <= i < p ==> IsIndexKey(keys[i]) && ParseNat(keys[i]) <= v
    ensures p < |keys| ==> !(IsIndexKey(keys[p]) && ParseNat(keys[p]) <= v)
  {
    if keys == [] || !(IsIndexKey(keys[0]) && ParseNat(keys[0]) <= v) then 0
    else 1 + IndexPosition(keys[1..], v)
  }

  /** Where a new key goes: an index key before the first key that must follow it, any other key
      at the end. */
  function Position(keys: seq<string>, k: string): (p: nat)
    ensures p <= |keys|
  {
    if IsIndexKey(k) then IndexPosition(keys, ParseNat(k)) else |keys|
  }

  /** The keys after a new own property `k` is added. */
  function Insert(keys: seq<string>, k: string): (r: seq<string>)
    ensures |r| == |keys| + 1
    ensures !IsIndexKey(k) ==> r == keys + [k]
  {
    var p := Position(keys, k);
    keys[..p] + [k] + keys[p..]
  }

  /** Adding a new key lists exactly the old keys and the new one, each once. */
  lemma InsertKeepsKeys(keys: seq<string>, k: string)
    requires Distinct(keys) && k !in keys
    ensures var r := Insert(keys, k); Distinct(r) && forall x :: x in r <==> x in keys || x == k
  {
    var p := Position(keys, k);
    var r := Insert(keys, k);
    assert forall i :: 0 <= i < p ==> r[i] == keys[i];
    assert forall i :: p < i < |r| ==> r[i] == keys[i - 1];
    forall x
      ensures x in r <==> x in keys || x == k
    {
      if x in keys {
        var i :| 0 <= i < |keys| && keys[i] == x;
        if i < p { assert r[i] == x; } else { assert r[i + 1] == x; }
      }
    }
  }

  /** Adding a new key keeps the listing order. */
  lemma InsertKeepsOrder(keys: seq<string>, k: string)
    requires KeysOrdered(keys)
    ensures KeysOrdered(Insert(keys, k))
  {
    var p := Position(keys, k);
    var r := Insert(keys, k);
    assert r[p] == k;
    assert forall i :: 0 <= i < p ==> r[i] == keys[i];
    assert forall i :: p < i < |r| ==> r[i] == keys[i - 1];
    forall i, j | 0 <= i < j < |r| && IsIndexKey(r[j])
      ensures IsIndexKey(r[i]) && ParseNat(r[i]) <= ParseNat(r[j])
    {
      if j == p {
        assert IsIndexKey(k) && p == IndexPosition(keys, ParseNat(k));
      } else if i == p {
        assert IsIndexKey(keys[p]) && ParseNat(keys[p]) <= ParseNat(r[j]) by {
          if p < j - 1 { assert keys[j - 1] == r[j]; }
        }
      }
    }
  }

  /** An all-digit id created after another id is listed before it. */
  lemma DigitIdListedFirst()
    ensures Insert(Insert([], "ABC123"), "482913") == ["482913", "ABC123"]
  {
    assert !IsIndexKey("ABC123") by { assert !IsDigit("ABC123"[0]); }
    assert ParseNat("482913") == 482913 by {
      assert "482913"[..5] == "48291";
      assert "48291"[..4] == "4829";
      assert "4829"[..3] == "482";
      assert "482"[..2] == "48";
      assert "48"[..1] == "4";
      assert "4"[..0] == "";
    }
    assert IsIndexKey("482913");
    assert IndexPosition(["ABC123"], 482913) == 0;
  }
}
