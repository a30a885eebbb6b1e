/** Keyboard control of the race car: the held-key list and its membership predicates
 *  (RaceCar/RaceCarControls.swift). */
module RaceCarControls {
  import opened Wrappers

  /** Key codes as the window system delivers them (Swift `UInt16`). */
  newtype KeyCode = x: int | 0 <= x < 0x1_0000

  /** `RaceCar.Controls.Key`: the keys the game reacts to. */
  datatype Key = AccelerateKey | LeftKey | BrakeReverseKey | RightKey | Space | ChangeCameraKey

  /** The raw value each key is declared with (W, A, S, D, space, C). */
  function RawValue(k: Key): KeyCode {
    match k
    case AccelerateKey => 13
    case LeftKey => 0
    case BrakeReverseKey => 1
    case RightKey => 2
    case Space => 49
    case ChangeCameraKey => 8
  }

  /** `Key(rawValue:)`: the key declared with this code, if any. */
  function KeyFrom(code: KeyCode): (r: Option<Key>)
    ensures r.Some? ==> RawValue(r.value) == code
    ensures r.None? <==> forall k: Key :: RawValue(k) != code
  {
    if code == 13 then Some(AccelerateKey)
    else if code == 0 then Some(LeftKey)
    else if code == 1 then Some(BrakeReverseKey)
    else if code == 2 then Some(RightKey)
    else if code == 49 then Some(Space)
    else if code == 8 then Some(ChangeCameraKey)
    else None
  }

  /** No key is held twice. */
  predicate NoDuplicates(keys: seq<Key>) {
    forall i, j :: 0 <= i < j < |keys| ==> keys[i] != keys[j]
  }

  /** The held keys after a press: appended only if absent. */
  function Pressed(keys: seq<Key>, k: Key): seq<Key> {
    if k in keys then keys else keys + [k]
  }

  /** The held keys after a release: the first occurrence of `k`, if any, is dropped. */
  function Released(keys: seq<Key>, k: Key): seq<Key> {
    if keys == [] then []
    else if keys[0] == k then keys[1..]
    else [keys[0]] + Released(keys[1..], k)
  }

  /** Pressing a held key changes nothing; pressing a new key puts it at the end, after the keys
   *  already held in their old positions; pressing any key twice is pressing it once. */
  lemma PressIdempotent(keys: seq<Key>, k: Key)
    ensures k in keys ==> Pressed(keys, k) == keys
    ensures k !in keys ==>
      |Pressed(keys, k)| == |keys| + 1 && Pressed(keys, k)[..|keys|] == keys && Pressed(keys, k)[|keys|] == k
    ensures Pressed(Pressed(keys, k), k) == Pressed(keys, k)
  {
  }

  /** Releasing a key that is not held changes nothing. */
  lemma {:induction false} ReleaseAbsent(keys: seq<Key>, k: Key)
    requires k !in keys
    ensures Released(keys, k) == keys
  {
    if keys != [] {
      assert keys[0] != k;
      ReleaseAbsent(keys[1..], k);
      assert [keys[0]] + keys[1..] == keys;
    }
  }

  /** If no earlier position holds `k`, releasing it leaves the first `i` keys in place. */
  lemma {:induction false} ReleasedAfterPrefix(keys: seq<Key>, k: Key, i: nat)
    requires i <= |keys| && k !in keys[..i]
    ensures Released(keys, k) == keys[..i] + Released(keys[i..], k)
  {
    if i > 0 {
      assert keys[0] in keys[..i];
      assert keys[1..][..i - 1] == keys[..i][1..];
      ReleasedAfterPrefix(keys[1..], k, i - 1);
      assert keys[1..][i - 1..] == keys[i..];
      assert [keys[0]] + keys[1..][..i - 1] == keys[..i];
    }
  }

  /** Releasing a held key removes exactly its first occurrence: the keys before it and after
   *  it keep their order, and the list is one shorter. */
  lemma ReleasePresent(keys: seq<Key>, k: Key) returns (i: nat)
    requires k in keys
    ensures i < |keys| && keys[i] == k && k !in keys[..i]
    ensures Released(keys, k) == keys[..i] + keys[i + 1..]
    ensures |Released(keys, k)| == |keys| - 1
  {
    i := 0;
    while keys[i] != k
      invariant i < |keys| && k !in keys[..i] && k in keys[i..]
      decreases |keys| - i
    {
      assert keys[..i + 1] == keys[..i] + [keys[i]];
      i := i + 1;
    }
    ReleasedAfterPrefix(keys, k, i);
    assert keys[i..] == [keys[i]] + keys[i + 1..];
  }

  /** Pressing keeps the list free of duplicates and makes the key held. */
  lemma PressKeepsNoDuplicates(keys: seq<Key>, k: Key)
    requires NoDuplicates(keys)
    ensures NoDuplicates(Pressed(keys, k)) && k in Pressed(keys, k)
    ensures forall j :: j in Pressed(keys, k) <==> j in keys || j == k
  {
  }

  /** Releasing keeps the list free of duplicates; without duplicates the key is then not held,
   *  and every other key is held exactly as before. */
  lemma ReleaseKeepsNoDuplicates(keys: seq<Key>, k: Key)
    requires NoDuplicates(keys)
    ensures NoDuplicates(Released(keys, k))
    ensures forall j :: j in Released(keys, k) <==> j in keys && j != k
  {
    if k in keys {
      var i := ReleasePresent(keys, k);
      var r := Released(keys, k);
      assert forall a :: 0 <= a < |r| ==> r[a] == if a < i then keys[a] else keys[a + 1];
      forall j
        ensures j in r <==> j in keys && j != k
      {
        if j in keys && j != k {
          var a :| 0 <= a < |keys| && keys[a] == j;
          assert a != i;
          assert r[if a < i then a else a - 1] == j;
        }
      }
    } else {
      ReleaseAbsent(keys, k);
    }
  }

  /** `RaceCar.Controls`: the keys currently held down, in the order they were pressed. */
  class Controls {
    var activeKeys: seq<Key>

    constructor ()
      ensures activeKeys == []
    {
      activeKeys := [];
    }

    predicate AccelerateKeyActive() reads this { AccelerateKey in activeKeys }
    predicate RightKeyActive() reads this { RightKey in activeKeys }
    predicate LeftKeyActive() reads this { LeftKey in activeKeys }
    predicate BrakeReverseKeyActive() reads this { BrakeReverseKey in activeKeys }
    predicate ChangeCameraKeyActive() reads this { ChangeCameraKey in activeKeys }

    /** `didRecieve(keyInput:)`: a key went down. */
    method DidRecieve(key: Key)
      modifies this
      ensures activeKeys == Pressed(old(activeKeys), key)
      ensures NoDuplicates(old(activeKeys)) ==> NoDuplicates(activeKeys)
    {
      if NoDuplicates(activeKeys) {
        PressKeepsNoDuplicates(activeKeys, key);
      }
      if key !in activeKeys {
        activeKeys := activeKeys + [key];
      }
    }

    /** `didEnd(keyInput:)`: a key came up; the first matching entry is removed. */
    method DidEnd(key: Key)
      modifies this
      ensures activeKeys == Released(old(activeKeys), key)
      ensures NoDuplicates(old(activeKeys)) ==> NoDuplicates(activeKeys) && key !in activeKeys
    {
      if NoDuplicates(activeKeys) {
        ReleaseKeepsNoDuplicates(activeKeys, key);
      }
      var n := |activeKeys|;
      for i := 0 to n
        invariant activeKeys == old(activeKeys)
        invariant key !in activeKeys[..i]
      {
        if activeKeys[i] == key {
          ReleasedAfterPrefix(activeKeys, key, i);
          assert activeKeys[i..] == [key] + activeKeys[i + 1..];
          activeKeys := activeKeys[..i] + activeKeys[i + 1..];
          return;
        }
        assert activeKeys[..i + 1] == activeKeys[..i] + [activeKeys[i]];
      }
      assert activeKeys[..n] == activeKeys;
      ReleaseAbsent(activeKeys, key);
    }

    /** `cameraDidChange()`: the camera key is treated as released once the view has swapped. */
    method CameraDidChange()
      modifies this
      ensures activeKeys == Released(old(activeKeys), ChangeCameraKey)
      ensures NoDuplicates(old(activeKeys)) ==>
        !ChangeCameraKeyActive() && NoDuplicates(activeKeys) &&
        forall j :: j != ChangeCameraKey ==> (j in activeKeys <==> j in old(activeKeys))
    {
      if NoDuplicates(activeKeys) {
        ReleaseKeepsNoDuplicates(activeKeys, ChangeCameraKey);
      }
      DidEnd(ChangeCameraKey);
    }
  }
}
