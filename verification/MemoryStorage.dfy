/** The in-memory storage and its snapshot iterator (storage/memory.go). */
module MemoryStorage {
  import opened Common
  import opened Order
  import opened LocalStore

  /** The list that goes with a map: its keys in order, each once. */
  ghost predicate IsIndex(keys: seq<string>, storage: map<string, string>) {
    Sorted(keys, Before) && NoDuplicates(keys) && ToSet(keys) == storage.Keys
  }

  /** There is only one. */
  lemma IndexIsUnique(a: seq<string>, b: seq<string>, storage: map<string, string>)
    requires IsIndex(a, storage) && IsIndex(b, storage)
    ensures a == b
  {
    BeforeIsAnOrder();
    SameSetSameMultiset(a, b);
    SortedIsUnique(a, b, Before);
  }

  lemma InIndex(keys: seq<string>, storage: map<string, string>)
    requires IsIndex(keys, storage)
    ensures forall k :: k in keys <==> k in storage
  {
    assert forall k :: k in keys <==> k in ToSet(keys);
  }

  lemma IndexWith(keys: seq<string>, storage: map<string, string>, key: string, value: string)
    requires IsIndex(keys, storage) && key !in storage
    ensures IsIndex(Sort(keys + [key], Before), storage[key := value])
  {
    BeforeIsAnOrder();
    InIndex(keys, storage);
    SortSorts(keys + [key], Before);
    SortKeepsDistinct(keys + [key], Before);
    assert ToSet(keys + [key]) == ToSet(keys) + {key};
  }

  lemma IndexWithout(keys: seq<string>, storage: map<string, string>, i: nat)
    requires IsIndex(keys, storage) && i < |keys|
    ensures IsIndex(keys[..i] + keys[i + 1..], storage - {keys[i]})
  {
    var rest := keys[..i] + keys[i + 1..];
    assert forall j | 0 <= j < |rest| :: rest[j] == keys[if j < i then j else j + 1];
    forall k ensures k in ToSet(rest) <==> k in (storage - {keys[i]}).Keys {
      assert k in keys <==> k in ToSet(keys);
      if k in keys && k != keys[i] {
        var j :| 0 <= j < |keys| && keys[j] == k;
        assert rest[if j < i then j else j - 1] == k;
      }
    }
  }

  // ---------- a history of writes ----------

  datatype Write = Set(key: string, value: Option<string>) | Delete(key: string)

  /** What the writes leave: setting nil is refused. */
  function After(writes: seq<Write>): map<string, string> {
    if writes == [] then map[]
    else Written(After(writes[..|writes| - 1]), writes[|writes| - 1])
  }

  function Written(storage: map<string, string>, w: Write): map<string, string> {
    match w
    case Set(key, value) => if value.Some? then storage[key := value.value] else storage
    case Delete(key) => storage - {key}
  }

  lemma OneMoreWrite(writes: seq<Write>, w: Write)
    ensures After(writes + [w]) == Written(After(writes), w)
  {
    assert (writes + [w])[..|writes|] == writes;
  }

  /** What the last of the writes to `key` left there, from the writes alone. */
  function LastWritten(writes: seq<Write>, key: string): Option<string> {
    if writes == [] then None
    else
      var before, last := writes[..|writes| - 1], writes[|writes| - 1];
      if last.key != key || last == Set(key, None) then LastWritten(before, key)
      else if last.Set? then last.value
      else None
  }

  lemma {:induction false} AfterIsLastWritten(writes: seq<Write>, key: string)
    ensures LastWritten(writes, key) == if key in After(writes) then Some(After(writes)[key]) else None
  {
    if writes != [] {
      AfterIsLastWritten(writes[..|writes| - 1], key);
    }
  }

  /** The loop of Delete over the key list. */
  method RemoveKey(keys: seq<string>, ghost storage: map<string, string>, key: string) returns (rest: seq<string>)
    requires IsIndex(keys, storage)
    ensures IsIndex(rest, storage - {key})
  {
    rest := keys;
    var i := 0;
    while i < |keys|
      invariant 0 <= i <= |keys| && forall j | 0 <= j < i :: keys[j] != key
    {
      if keys[i] == key {
        IndexWithout(keys, storage, i);
        return keys[..i] + keys[i + 1..];
      }
      i := i + 1;
    }
    InIndex(keys, storage);
    assert storage - {key} == storage;
  }

  class Memory {
    var keys: seq<string>
    var storage: map<string, string>
    ghost var writes: seq<Write>

    ghost predicate Valid()
      reads this
    {
      IsIndex(keys, storage) && storage == After(writes)
    }

    constructor ()
      ensures Valid() && writes == []
    {
      keys, storage, writes := [], map[], [];
    }

    method Has(key: string) returns (has: bool)
      requires Valid()
      ensures has <==> key in keys
      ensures has <==> LastWritten(writes, key).Some?
    {
      InIndex(keys, storage);
      AfterIsLastWritten(writes, key);
      has := key in storage;
    }

    method Get(key: string) returns (value: Option<string>)
      requires Valid()
      ensures value == LastWritten(writes, key)
    {
      AfterIsLastWritten(writes, key);
      value := if key in storage then Some(storage[key]) else None;
    }

    /** nil is refused. */
    method Set(key: string, value: Option<string>) returns (ok: bool)
      requires Valid()
      modifies this
      ensures Valid() && ok == value.Some? && storage == Written(old(storage), Write.Set(key, value))
      ensures writes == old(writes) + [Write.Set(key, value)]
      ensures old(key in storage) || value.None? ==> keys == old(keys)
    {
      OneMoreWrite(writes, Write.Set(key, value));
      writes := writes + [Write.Set(key, value)];
      if value.None? {
        return false;
      }
      if key !in storage {
        IndexWith(keys, storage, key, value.value);
        keys := Sort(keys + [key], Before);
      }
      storage := storage[key := value.value];
      ok := true;
    }

    method Delete(key: string)
      requires Valid()
      modifies this
      ensures Valid() && storage == Written(old(storage), Write.Delete(key))
      ensures writes == old(writes) + [Write.Delete(key)]
    {
      OneMoreWrite(writes, Write.Delete(key));
      keys := RemoveKey(keys, storage, key);
      storage := storage - {key};
      writes := writes + [Write.Delete(key)];
    }

    /** A snapshot: nothing the iterator sees is shared with the storage. */
    method Iterator() returns (it: MemIter)
      requires Valid()
      ensures fresh(it) && it.keys == keys && it.storage == storage && it.current == -1
    {
      it := new MemIter(keys, storage);
    }
  }

  /** Any history of writes, played on a new storage. */
  method Play(writes: seq<Write>) returns (m: Memory)
    ensures m.Valid() && m.writes == writes && m.storage == After(writes)
  {
    m := new Memory();
    var i := 0;
    while i < |writes|
      invariant 0 <= i <= |writes| && fresh(m) && m.Valid() && m.writes == writes[..i]
    {
      match writes[i] {
        case Set(key, value) => var _ := m.Set(key, value);
        case Delete(key) => m.Delete(key);
      }
      i := i + 1;
    }
    assert writes[..i] == writes;
  }

  // ---------- iteration ----------

  /** The entries from position `i` on, without the offset. */
  ghost function Entries(keys: seq<string>, storage: map<string, string>, i: nat): seq<(string, string)>
    requires forall k | k in keys :: k in storage
    decreases |keys| - i
  {
    if i >= |keys| then []
    else if keys[i] == OFFSET_KEY then Entries(keys, storage, i + 1)
    else [(keys[i], storage[keys[i]])] + Entries(keys, storage, i + 1)
  }

  /** `e` is what the storage has under a key from position `i` on. */
  ghost predicate ListedFrom(keys: seq<string>, storage: map<string, string>, i: nat, e: (string, string)) {
    exists j :: i <= j < |keys| && keys[j] == e.0 && e.0 in storage && storage[e.0] == e.1
  }

  lemma ListedNext(keys: seq<string>, storage: map<string, string>, i: nat, e: (string, string))
    requires i < |keys| && keys[i] in storage
    ensures ListedFrom(keys, storage, i, e) <==> e == (keys[i], storage[keys[i]]) || ListedFrom(keys, storage, i + 1, e)
  {
    if e == (keys[i], storage[keys[i]]) {
      assert keys[i] == e.0;
    }
  }

  lemma {:induction false} EntriesAreIn(keys: seq<string>, storage: map<string, string>, i: nat, e: (string, string))
    requires forall k | k in keys :: k in storage
    ensures e in Entries(keys, storage, i) <==> e.0 != OFFSET_KEY && ListedFrom(keys, storage, i, e)
    decreases |keys| - i
  {
    if i < |keys| {
      ListedNext(keys, storage, i, e);
      EntriesAreIn(keys, storage, i + 1, e);
    }
  }

  ghost predicate StrictlySorted(es: seq<(string, string)>) {
    forall a, b | 0 <= a < b < |es| :: Before(es[a].0, es[b].0)
  }

  lemma {:induction false} EntriesInOrder(keys: seq<string>, storage: map<string, string>, i: nat)
    requires (forall k | k in keys :: k in storage) && Sorted(keys, Before) && NoDuplicates(keys)
    ensures StrictlySorted(Entries(keys, storage, i))
    decreases |keys| - i
  {
    if i < |keys| {
      EntriesInOrder(keys, storage, i + 1);
      var rest := Entries(keys, storage, i + 1);
      forall b | 0 <= b < |rest| ensures Before(keys[i], rest[b].0) {
        EntriesAreIn(keys, storage, i + 1, rest[b]);
        assert rest[b] in rest;
        var j :| i + 1 <= j < |keys| && keys[j] == rest[b].0;
        BeforeIsTotal(keys[i], keys[j]);
      }
      assert StrictlySorted([(keys[i], storage[keys[i]])] + rest);
    }
  }

  /** The entries of a storage are those of its map, the offset left out, in strict order. */
  lemma EntriesAreTheMap(keys: seq<string>, storage: map<string, string>)
    requires IsIndex(keys, storage)
    ensures forall k | k in keys :: k in storage
    ensures var es := Entries(keys, storage, 0);
            && StrictlySorted(es)
            && (forall e :: e in es <==> e.0 in storage && storage[e.0] == e.1 && e.0 != OFFSET_KEY)
  {
    InIndex(keys, storage);
    EntriesInOrder(keys, storage, 0);
    forall e ensures e in Entries(keys, storage, 0) <==> e.0 in storage && storage[e.0] == e.1 && e.0 != OFFSET_KEY {
      EntriesAreIn(keys, storage, 0, e);
      if e.0 in storage {
        assert e.0 in keys;
      }
    }
  }

  lemma Regroup(a: seq<(string, string)>, e: (string, string), b: seq<(string, string)>)
    ensures a + ([e] + b) == (a + [e]) + b
  {
  }

  /** Skipping one offset is skipping all, as keys are listed once. */
  lemma EntriesNext(keys: seq<string>, storage: map<string, string>, i: nat)
    requires NoDuplicates(keys) && forall k | k in keys :: k in storage
    ensures var j := if i < |keys| && keys[i] == OFFSET_KEY then i + 1 else i;
            Entries(keys, storage, i) ==
            if j < |keys| then [(keys[j], storage[keys[j]])] + Entries(keys, storage, j + 1) else []
  {
  }

  class MemIter {
    const keys: seq<string>
    const storage: map<string, string>
    var current: int

    constructor (keys: seq<string>, storage: map<string, string>)
      ensures this.keys == keys && this.storage == storage && current == -1
    {
      this.keys, this.storage, current := keys, storage, -1;
    }

    predicate Exhausted()
      reads this
    {
      |keys| <= current
    }

    /** Reading before the first Next would be out of range. */
    function Key(): Option<string>
      requires current >= 0
      reads this
    {
      if Exhausted() then None else Some(keys[current])
    }

    function Value(): Option<string>
      requires current >= 0
      reads this
    {
      if Exhausted() || keys[current] !in storage then None else Some(storage[keys[current]])
    }

    method Next() returns (ok: bool)
      requires current >= -1
      modifies this
      ensures ok <==> !Exhausted()
      ensures current == old(current) + if old(current) + 1 < |keys| &&
              keys[old(current) + 1] == OFFSET_KEY then 2 else 1
    {
      current := current + 1;
      if Key() == Some(OFFSET_KEY) {
        current := current + 1;
      }
      ok := !Exhausted();
    }

    /** Next, and the entry it stands on then. */
    method ReadNext() returns (entry: Option<(string, string)>)
      requires current >= -1 && NoDuplicates(keys) && forall k | k in keys :: k in storage
      modifies this
      ensures current > old(current) && (entry.None? ==> Exhausted())
      ensures Entries(keys, storage, old(current) + 1) ==
              if entry.None? then [] else [entry.value] + Entries(keys, storage, current + 1)
    {
      EntriesNext(keys, storage, current + 1);
      var ok := Next();
      entry := if ok then Some((Key().value, Value().value)) else None;
    }

    /** Next until it says no, reading each entry. */
    method Collect() returns (out: seq<(string, string)>)
      requires current >= -1 && NoDuplicates(keys) && forall k | k in keys :: k in storage
      modifies this
      ensures Exhausted() && out == Entries(keys, storage, old(current) + 1)
    {
      out := [];
      ghost var ahead := Entries(keys, storage, current + 1);
      var more := true;
      while more
        invariant current >= -1
        invariant if more then ahead == Entries(keys, storage, current + 1) else ahead == [] && Exhausted()
        invariant out + ahead == Entries(keys, storage, old(current) + 1)
        decreases if more then 1 else 0, |keys| - current
      {
        var entry := ReadNext();
        if entry.Some? {
          Regroup(out, entry.value, Entries(keys, storage, current + 1));
          out := out + [entry.value];
          ahead := Entries(keys, storage, current + 1);
        } else {
          more := false;
        }
      }
    }

    /** Seek goes forward only, from where the iterator is, to a key that starts with the given one. */
    method Seek(key: string) returns (ok: bool)
      requires current >= -1
      modifies this
      ensures ok <==> !Exhausted()
      ensures old(current) >= 0 ==> current == FirstWithPrefix(keys, old(current), key)
      ensures old(current) < 0 && keys != [] ==>
                current == FirstWithPrefix(keys, if keys[0] == OFFSET_KEY then 1 else 0, key)
    {
      if Exhausted() {
        return false;
      }
      if current < 0 {
        var more := Next();
        if !more {
          return false;
        }
      }
      ghost var start := current;
      while current < |keys|
        invariant start <= current <= |keys| && FirstWithPrefix(keys, current, key) == FirstWithPrefix(keys, start, key)
      {
        if key <= keys[current] {
          break;
        }
        current := current + 1;
      }
      ok := !Exhausted();
    }
  }

  // ---------- seeking by prefix ----------

  ghost function FirstWithPrefix(keys: seq<string>, from: nat, key: string): (i: nat)
    ensures from <= i && (from <= |keys| ==> i <= |keys|) && (i < |keys| ==> key <= keys[i])
    decreases |keys| - from
  {
    if from >= |keys| || key <= keys[from] then from else FirstWithPrefix(keys, from + 1, key)
  }

  /** The first key that is not before the given one: where Seek is documented to go. */
  ghost function FirstNotBefore(keys: seq<string>, from: nat, key: string): (i: nat)
    ensures from <= i && (from <= |keys| ==> i <= |keys|) && (i < |keys| ==> !Before(keys[i], key))
    decreases |keys| - from
  {
    if from >= |keys| || !Before(keys[from], key) then from else FirstNotBefore(keys, from + 1, key)
  }

  lemma {:induction false} ExtensionIsNotBefore(key: string, k: string)
    requires key <= k
    ensures !Before(k, key)
  {
    if key != [] && k[0] == key[0] {
      ExtensionIsNotBefore(key[1..], k[1..]);
    }
  }

  lemma {:induction false} SameFirst(keys: seq<string>, a: nat, b: nat, key: string)
    requires a <= b <= FirstNotBefore(keys, a, key) <= |keys|
    ensures FirstNotBefore(keys, b, key) == FirstNotBefore(keys, a, key)
    decreases b - a
  {
    if a < b {
      SameFirst(keys, a + 1, b, key);
    }
  }

  lemma {:induction false} FirstOfBoth(keys: seq<string>, from: nat, key: string)
    requires from <= |keys|
    ensures FirstNotBefore(keys, from, key) <= FirstWithPrefix(keys, from, key)
    ensures var i := FirstNotBefore(keys, from, key);
            FirstWithPrefix(keys, from, key) == i <==> i >= |keys| || key <= keys[i]
    decreases |keys| - from
  {
    if from < |keys| {
      if key <= keys[from] {
        ExtensionIsNotBefore(key, keys[from]);
      } else {
        FirstOfBoth(keys, from + 1, key);
      }
    }
  }

  /**
    Seek is documented to go to the first key that is not before the given one, wherever the iterator is.
    From position `from` it goes there exactly when that key is not behind it, and starts with the
    given one or does not exist.
   */
  lemma SeekAsDocumented(keys: seq<string>, from: nat, key: string)
    requires from <= |keys|
    ensures var i := FirstNotBefore(keys, 0, key);
            FirstWithPrefix(keys, from, key) == i <==> from <= i && (i >= |keys| || key <= keys[i])
  {
    var i := FirstNotBefore(keys, 0, key);
    FirstOfBoth(keys, from, key);
    if from <= i {
      SameFirst(keys, 0, from, key);
    }
  }

  lemma SeekMissesLaterKeys()
    ensures FirstNotBefore(["b"], 0, "a") == 0 && FirstWithPrefix(["b"], 0, "a") == 1
  {
    assert "b"[0] == 'b' && "a"[0] == 'a';
    assert FirstWithPrefix(["b"], 1, "a") == 1;
  }

  lemma SeekDoesNotGoBack()
    ensures FirstNotBefore(["a", "ab"], 0, "a") == 0 && FirstWithPrefix(["a", "ab"], 1, "a") == 1
  {
    BeforeIsIrreflexive("a");
    assert "a" <= "ab";
  }
}
