/** The weight file: named arrays, each behind a 64-byte header, parsed without copying. */
module WeightBlob {
  import opened Wrappers

  const WEIGHT_BLOCK_SIZE := 64
  const NAME_SIZE := 44
  const INITIAL_CAPACITY := 20

  /** One array of the file: where its bytes are, not a copy of them. */
  datatype Entry = Entry(name: seq<byte>, kind: int, at: nat, size: nat)

  /** A signed little-endian 32-bit integer. */
  function ReadInt(data: seq<byte>, at: nat): (n: int)
    requires at + 4 <= |data|
    ensures -0x8000_0000 <= n < 0x8000_0000
  {
    var u := data[at] as int + 0x100 * data[at + 1] as int + 0x1_0000 * data[at + 2] as int + 0x100_0000 * data[at + 3] as int;
    if u >= 0x8000_0000 then u - 0x1_0000_0000 else u
  }

  /** Header at `at`: four bytes of magic, version, type, size, block size, and a name of 44 bytes. */
  function Kind(data: seq<byte>, at: nat): int
    requires at + WEIGHT_BLOCK_SIZE <= |data|
  {
    ReadInt(data, at + 8)
  }

  function Size(data: seq<byte>, at: nat): int
    requires at + WEIGHT_BLOCK_SIZE <= |data|
  {
    ReadInt(data, at + 12)
  }

  function BlockSize(data: seq<byte>, at: nat): int
    requires at + WEIGHT_BLOCK_SIZE <= |data|
  {
    ReadInt(data, at + 16)
  }

  function Name(data: seq<byte>, at: nat): (s: seq<byte>)
    requires at + WEIGHT_BLOCK_SIZE <= |data|
    ensures |s| == NAME_SIZE
  {
    data[at + 20..at + WEIGHT_BLOCK_SIZE]
  }

  /** A record that can be taken: its block holds its data, lies inside the file, and its name ends. */
  predicate RecordOk(data: seq<byte>, at: nat) {
    && at + WEIGHT_BLOCK_SIZE <= |data|
    && 0 <= Size(data, at) <= BlockSize(data, at) <= |data| - at - WEIGHT_BLOCK_SIZE
    && Name(data, at)[NAME_SIZE - 1] == 0
  }

  function EntryAt(data: seq<byte>, at: nat): Entry
    requires RecordOk(data, at)
  {
    Entry(Name(data, at), Kind(data, at), at + WEIGHT_BLOCK_SIZE, Size(data, at))
  }

  function NextAt(data: seq<byte>, at: nat): (next: nat)
    requires RecordOk(data, at)
    ensures at + WEIGHT_BLOCK_SIZE <= next <= |data|
  {
    at + WEIGHT_BLOCK_SIZE + BlockSize(data, at)
  }

  /** The arrays from `at` to the end of the file, if every record there can be taken and none is empty. */
  function Entries(data: seq<byte>, at: nat): Option<seq<Entry>>
    requires at <= |data|
    decreases |data| - at
  {
    if at == |data| then Some([])
    else if !RecordOk(data, at) || Size(data, at) == 0 then None
    else
      var rest := Entries(data, NextAt(data, at));
      if rest.None? then None else Some([EntryAt(data, at)] + rest.value)
  }

  /** Takes one record: its size, or -1, and the position after it. */
  method ParseRecord(data: seq<byte>, at: nat) returns (ret: int, entry: Entry, next: nat)
    requires at <= |data|
    ensures ret == if RecordOk(data, at) then Size(data, at) else -1
    ensures ret >= 0 ==> entry == EntryAt(data, at) && next == NextAt(data, at)
    ensures ret >= 0 <==> |data| >= at + 64 && 0 <= ReadInt(data, at + 12) <= ReadInt(data, at + 16) <= |data| - at - 64
                          && data[at + 63] == 0
    ensures ret >= 0 ==> entry.kind == ReadInt(data, at + 8) && entry.name == data[at + 20..at + 64] && entry.at == at + 64
                         && ret == entry.size == ReadInt(data, at + 12) && next == at + 64 + ReadInt(data, at + 16)
  {
    hide ReadInt;
    entry, next := Entry([], 0, 0, 0), at;
    var len := |data| - at;
    if len < WEIGHT_BLOCK_SIZE { return -1, entry, next; }
    var size, blockSize := ReadInt(data, at + 12), ReadInt(data, at + 16);
    if blockSize < size { return -1, entry, next; }
    if blockSize > len - WEIGHT_BLOCK_SIZE { return -1, entry, next; }
    var name := data[at + 20..at + 64];
    if name[NAME_SIZE - 1] != 0 { return -1, entry, next; }
    if size < 0 { return -1, entry, next; }
    entry := Entry(name, ReadInt(data, at + 8), at + WEIGHT_BLOCK_SIZE, size);
    return size, entry, at + blockSize + WEIGHT_BLOCK_SIZE;
  }

  /** The whole file, into a list that grows as needed and always has room for its terminator. */
  method ParseWeights(data: seq<byte>) returns (nbArrays: int, list: array<Option<Entry>>)
    ensures nbArrays == (var e := Entries(data, 0); if e.None? then -1 else |e.value|)
    ensures nbArrays >= 0 ==> fresh(list) && nbArrays < list.Length && list[nbArrays] == None
    ensures nbArrays >= 0 ==> forall i :: 0 <= i < nbArrays ==> list[i] == Some(Entries(data, 0).value[i])
  {
    hide ReadInt, EntryAt, Name, NextAt;
    var capacity := INITIAL_CAPACITY;
    list := new Option<Entry>[capacity](_ => None);
    nbArrays := 0;
    var at := 0;
    ghost var found: seq<Entry> := [];
    NothingPrepended(Entries(data, 0));
    while at < |data|
      invariant at <= |data| && nbArrays == |found| < capacity == list.Length && fresh(list) && capacity >= INITIAL_CAPACITY
      invariant forall i :: 0 <= i < nbArrays ==> list[i] == Some(found[i])
      invariant Entries(data, 0) == Prepended(found, Entries(data, at))
      decreases |data| - at
    {
      var ret, entry, next := ParseRecord(data, at);
      if ret <= 0 { return -1, list; }
      if nbArrays + 1 >= capacity {
        capacity := capacity * 3 / 2;
        list := Grown(list, capacity);
      }
      PrependedStep(found, entry, Entries(data, next));
      list[nbArrays] := Some(entry);
      found := found + [entry];
      nbArrays := nbArrays + 1;
      at := next;
    }
    list[nbArrays] := None;
  }

  function Prepended(found: seq<Entry>, rest: Option<seq<Entry>>): Option<seq<Entry>> {
    if rest.None? then None else Some(found + rest.value)
  }

  lemma NothingPrepended(rest: Option<seq<Entry>>)
    ensures Prepended([], rest) == rest
  {
    if rest.Some? {
      assert [] + rest.value == rest.value;
    }
  }

  lemma PrependedStep(found: seq<Entry>, e: Entry, rest: Option<seq<Entry>>)
    ensures Prepended(found, if rest.None? then None else Some([e] + rest.value)) == Prepended(found + [e], rest)
  {
    if rest.Some? {
      assert found + ([e] + rest.value) == (found + [e]) + rest.value;
    }
  }

  method Grown(list: array<Option<Entry>>, capacity: nat) returns (bigger: array<Option<Entry>>)
    requires capacity >= list.Length
    ensures fresh(bigger) && bigger.Length == capacity
    ensures forall i :: 0 <= i < list.Length ==> bigger[i] == list[i]
  {
    bigger := new Option<Entry>[capacity](_ => None);
    var i := 0;
    while i < list.Length
      invariant 0 <= i <= list.Length && forall k :: 0 <= k < i ==> bigger[k] == list[k]
    {
      bigger[i] := list[i];
      i := i + 1;
    }
  }

  // ----- what an accepted file guarantees -----

  /** Every array lies inside the file, behind its header, and no two of them overlap. */
  lemma {:induction false} ArraysInside(data: seq<byte>, at: nat)
    requires at <= |data| && Entries(data, at).Some?
    ensures var e := Entries(data, at).value;
            && (forall i :: 0 <= i < |e| ==> at + WEIGHT_BLOCK_SIZE <= e[i].at && 0 < e[i].size && e[i].at + e[i].size <= |data|)
            && (forall i, j :: 0 <= i < j < |e| ==> e[i].at + e[i].size + WEIGHT_BLOCK_SIZE <= e[j].at)
    decreases |data| - at
  {
    hide ReadInt;
    if at < |data| {
      ArraysInside(data, NextAt(data, at));
    }
  }

  // ----- writing and reading back -----

  /** An array to be written, with the padding after its data. */
  datatype Source = Source(name: seq<byte>, kind: int, data: seq<byte>, padding: nat)

  ghost predicate Writable(s: Source) {
    && |s.name| == NAME_SIZE && s.name[NAME_SIZE - 1] == 0 && 0 <= s.kind < 0x8000_0000
    && 0 < |s.data| && |s.data| + s.padding < 0x8000_0000
  }

  function WriteInt(n: int): (b: seq<byte>)
    requires 0 <= n < 0x8000_0000
    ensures |b| == 4
  {
    [(n % 0x100) as byte, (n / 0x100 % 0x100) as byte, (n / 0x1_0000 % 0x100) as byte, (n / 0x100_0000) as byte]
  }

  lemma ReadWritten(n: int, before: seq<byte>, after: seq<byte>)
    requires 0 <= n < 0x8000_0000
    ensures ReadInt(before + WriteInt(n) + after, |before|) == n
  {
    var d, b := before + WriteInt(n) + after, WriteInt(n);
    assert forall i :: 0 <= i < 4 ==> d[|before| + i] == b[i];
    var m := n / 0x100;
    assert n / 0x1_0000 == m / 0x100 && n / 0x100_0000 == m / 0x1_0000;
  }

  function Header(s: Source): (h: seq<byte>)
    requires Writable(s)
    ensures |h| == WEIGHT_BLOCK_SIZE
  {
    [0, 0, 0, 0] + WriteInt(0) + WriteInt(s.kind) + WriteInt(|s.data|) + WriteInt(|s.data| + s.padding) + s.name
  }

  function Zeros(n: nat): (z: seq<byte>)
    ensures |z| == n
  {
    seq(n, _ => 0)
  }

  function Written(sources: seq<Source>): seq<byte>
    requires forall s :: s in sources ==> Writable(s)
  {
    if sources == [] then []
    else Header(sources[0]) + sources[0].data + Zeros(sources[0].padding) + Written(sources[1..])
  }

  lemma HeaderReads(data: seq<byte>, before: seq<byte>, s: Source, after: seq<byte>)
    requires Writable(s) && data == before + Header(s) + s.data + Zeros(s.padding) + after
    ensures RecordOk(data, |before|) && Size(data, |before|) == |s.data|
    ensures EntryAt(data, |before|) == Entry(s.name, s.kind, |before| + WEIGHT_BLOCK_SIZE, |s.data|)
    ensures NextAt(data, |before|) == |before + Header(s) + s.data + Zeros(s.padding)|
  {
    hide ReadInt, WriteInt, Zeros;
    var tail := s.data + Zeros(s.padding) + after;
    var h0 := before + [0, 0, 0, 0] + WriteInt(0);
    assert data == h0 + WriteInt(s.kind) + (WriteInt(|s.data|) + WriteInt(|s.data| + s.padding) + s.name + tail);
    ReadWritten(s.kind, h0, WriteInt(|s.data|) + WriteInt(|s.data| + s.padding) + s.name + tail);
    var h1 := h0 + WriteInt(s.kind);
    assert data == h1 + WriteInt(|s.data|) + (WriteInt(|s.data| + s.padding) + s.name + tail);
    ReadWritten(|s.data|, h1, WriteInt(|s.data| + s.padding) + s.name + tail);
    var h2 := h1 + WriteInt(|s.data|);
    assert data == h2 + WriteInt(|s.data| + s.padding) + (s.name + tail);
    ReadWritten(|s.data| + s.padding, h2, s.name + tail);
    assert data[|before| + 20..|before| + 64] == s.name;
  }

  lemma FirstEntry(data: seq<byte>, at: nat)
    requires RecordOk(data, at) && Size(data, at) > 0
    ensures var rest := Entries(data, NextAt(data, at));
            Entries(data, at) == if rest.None? then None else Some([EntryAt(data, at)] + rest.value)
  {
  }

  /** Reading back what was written finds every array under its name, with its type and its bytes. */
  lemma {:induction false} RoundTrip(before: seq<byte>, sources: seq<Source>)
    requires forall s :: s in sources ==> Writable(s)
    ensures var data := before + Written(sources); var r := Entries(data, |before|);
            r.Some? && |r.value| == |sources| && forall i :: 0 <= i < |sources| ==> Matches(data, r.value[i], sources[i])
    decreases |sources|
  {
    hide Header, RecordOk, ReadInt, Size, EntryAt, NextAt, Zeros, Matches, Writable;
    var data := before + Written(sources);
    if sources == [] {
      assert data == before;
    } else {
      var s, rest := sources[0], sources[1..];
      var head := before + Header(s) + s.data + Zeros(s.padding);
      assert data == head + Written(rest);
      HeaderReads(data, before, s, Written(rest));
      DataReads(data, before, s, Written(rest));
      FirstEntry(data, |before|);
      RoundTrip(head, rest);
      var all, tail := Entries(data, |before|).value, Entries(data, |head|).value;
      forall i | 0 <= i < |sources| ensures Matches(data, all[i], sources[i]) {
        if i > 0 { assert all[i] == tail[i - 1] && sources[i] == rest[i - 1]; }
      }
    }
  }

  lemma DataReads(data: seq<byte>, before: seq<byte>, s: Source, after: seq<byte>)
    requires Writable(s) && data == before + Header(s) + s.data + Zeros(s.padding) + after
    ensures Matches(data, Entry(s.name, s.kind, |before| + WEIGHT_BLOCK_SIZE, |s.data|), s) && |s.data| > 0
  {
    hide Header, Zeros;
    var at := |before| + WEIGHT_BLOCK_SIZE;
    assert data[at..at + |s.data|] == s.data;
  }

  predicate Matches(data: seq<byte>, e: Entry, s: Source) {
    e.name == s.name && e.kind == s.kind && e.at + e.size <= |data| && data[e.at..e.at + e.size] == s.data
  }
}
