/** The pot's locking script: every seat must sign, each with a key of its own. */
module PotScript {
  import opened ScriptBytes
  import opened Options

  type Bytes = seq<byte>

  const MAX_SEATS: int := 6
  const KEY_LENGTH: int := 33
  const OP_CHECKMULTISIG: byte := 0xae

  /** OP_2 to OP_6. */
  function SmallInt(n: int): byte
    requires 0 <= n <= 16
  {
    0x50 + n
  }

  /** The keys in order, each behind its length. */
  function Pushes(keys: seq<Option<Bytes>>): Bytes
    requires forall i :: 0 <= i < |keys| ==> keys[i].Some? && |keys[i].value| == KEY_LENGTH
  {
    if keys == [] then [] else Pushes(keys[..|keys| - 1]) + [KEY_LENGTH] + keys[|keys| - 1].value
  }

  lemma NoPushes()
    ensures Pushes([]) == []
  {
  }

  lemma PushNext(keys: seq<Option<Bytes>>, i: nat)
    requires i < |keys| && forall j :: 0 <= j <= i ==> keys[j].Some? && |keys[j].value| == KEY_LENGTH
    ensures Pushes(keys[..i + 1]) == Pushes(keys[..i]) + [KEY_LENGTH] + keys[i].value
  {
    assert keys[..i + 1][..i] == keys[..i];
  }

  /** Built exactly for two to six present and different keys. */
  method Build(keys: seq<Option<Bytes>>) returns (r: Option<Bytes>)
    requires forall i :: 0 <= i < |keys| && keys[i].Some? ==> |keys[i].value| == KEY_LENGTH
    ensures r.Some? <==> 2 <= |keys| <= 6 && (forall i :: 0 <= i < |keys| ==> keys[i].Some?)
                         && (forall i, j :: 0 <= i < j < |keys| ==> keys[i] != keys[j])
    ensures r.Some? ==> r.value == [SmallInt(|keys|)] + Pushes(keys) + [SmallInt(|keys|), OP_CHECKMULTISIG]
    ensures r.Some? ==> RequiresAll(r.value, keys)
  {
    hide Pushes;
    if |keys| < 2 || |keys| > MAX_SEATS {
      return None;
    }
    var seen: set<Bytes> := {};
    var s: Bytes := [SmallInt(|keys|)];
    NoPushes();
    assert keys[..0] == [];
    for i := 0 to |keys|
      invariant forall j :: 0 <= j < i ==> keys[j].Some? && keys[j].value in seen
      invariant forall k :: k in seen ==> exists j :: 0 <= j < i && keys[j] == Some(k)
      invariant forall j, k :: 0 <= j < k < i ==> keys[j] != keys[k]
      invariant s == [SmallInt(|keys|)] + Pushes(keys[..i])
    {
      if keys[i].None? {
        return None;
      }
      var key := keys[i].value;
      if key in seen {
        return None;
      }
      PushNext(keys, i);
      seen := seen + {key};
      s := s + [KEY_LENGTH] + key;
    }
    assert keys[..|keys|] == keys;
    r := Some(s + [SmallInt(|keys|), OP_CHECKMULTISIG]);
    ScriptRequiresAll(keys);
  }

  /** The script as an interpreter reads it: OP_n, each of the n keys behind its length, OP_n and
      OP_CHECKMULTISIG, so that all n must sign. */
  ghost predicate RequiresAll(script: Bytes, keys: seq<Option<Bytes>>) {
    var n := |keys|;
    && |script| == 34 * n + 3 && script[0] == 0x50 + n
    && (forall i :: 0 <= i < n ==> KeyPushed(script, 1 + 34 * i, keys[i]))
    && script[34 * n + 1] == 0x50 + n && script[34 * n + 2] == 0xae
  }

  ghost predicate KeyPushed(script: Bytes, at: int, key: Option<Bytes>) {
    0 <= at && at + 34 <= |script| && script[at] == 33 && key == Some(script[at + 1..at + 34])
  }

  lemma ScriptRequiresAll(keys: seq<Option<Bytes>>)
    requires |keys| <= 16 && forall i :: 0 <= i < |keys| ==> keys[i].Some? && |keys[i].value| == KEY_LENGTH
    ensures RequiresAll([SmallInt(|keys|)] + Pushes(keys) + [SmallInt(|keys|), OP_CHECKMULTISIG], keys)
  {
    var n := |keys|;
    var script := [SmallInt(n)] + Pushes(keys) + [SmallInt(n), OP_CHECKMULTISIG];
    PushesLength(keys);
    forall i | 0 <= i < n
      ensures KeyPushed(script, 1 + 34 * i, keys[i])
    {
      PushedAt(keys, i);
      hide Pushes;
      assert script[1 + 34 * i..35 + 34 * i] == Pushes(keys)[34 * i..34 * i + 34];
      assert script[2 + 34 * i..35 + 34 * i] == script[1 + 34 * i..35 + 34 * i][1..];
    }
  }

  lemma {:induction false} PushedAt(keys: seq<Option<Bytes>>, i: nat)
    requires i < |keys| && forall j :: 0 <= j < |keys| ==> keys[j].Some? && |keys[j].value| == KEY_LENGTH
    ensures |Pushes(keys)| == 34 * |keys| && Pushes(keys)[34 * i..34 * i + 34] == [KEY_LENGTH] + keys[i].value
  {
    PushesLength(keys);
    var n := |keys| - 1;
    PushesLength(keys[..n]);
    if i < n {
      PushedAt(keys[..n], i);
      assert Pushes(keys)[34 * i..34 * i + 34] == Pushes(keys[..n])[34 * i..34 * i + 34];
    } else {
      assert Pushes(keys) == Pushes(keys[..n]) + ([KEY_LENGTH] + keys[n].value);
    }
  }

  lemma {:induction false} PushesLength(keys: seq<Option<Bytes>>)
    requires forall i :: 0 <= i < |keys| ==> keys[i].Some? && |keys[i].value| == KEY_LENGTH
    ensures |Pushes(keys)| == 34 * |keys|
  {
    if keys != [] { PushesLength(keys[..|keys| - 1]); }
  }

  /** The script names its keys and their order: no other seats can spend it. */
  lemma {:induction false} PushesDetermine(a: seq<Option<Bytes>>, b: seq<Option<Bytes>>)
    requires forall i :: 0 <= i < |a| ==> a[i].Some? && |a[i].value| == KEY_LENGTH
    requires forall i :: 0 <= i < |b| ==> b[i].Some? && |b[i].value| == KEY_LENGTH
    requires Pushes(a) == Pushes(b)
    ensures a == b
    decreases |a|
  {
    PushesLength(a);
    PushesLength(b);
    if |a| > 0 {
      var n := |a| - 1;
      var p, q := Pushes(a[..n]), Pushes(b[..n]);
      PushesLength(a[..n]);
      PushesLength(b[..n]);
      assert Pushes(a)[..34 * n] == p && Pushes(b)[..34 * n] == q;
      assert Pushes(a)[34 * n + 1..] == a[n].value && Pushes(b)[34 * n + 1..] == b[n].value;
      PushesDetermine(a[..n], b[..n]);
      assert a == a[..n] + [a[n]] && b == b[..n] + [b[n]];
    }
  }
}
