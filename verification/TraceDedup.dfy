/** The deduplicated request trace (src/rollout/telemetry.py:216-241): a blob is written in full the first
    time its digest is seen and as a reference afterwards. */
module TraceDedup {
  import opened EnvSteps

  /** A JSON object, its values as JSON texts. */
  type Blob = map<string, string>

  const SHA := "sha"

  /** A request blob, with the keys its references repeat. */
  datatype Item = Item(blob: Blob, refKeys: set<string>)

  function Full(b: Blob, sha: string): Blob { b[SHA := sha] }

  function Reference(i: Item, sha: string): Blob
    requires i.refKeys <= i.blob.Keys
  {
    (map k | k in i.refKeys :: i.blob[k])[SHA := sha]
  }

  /** The entries written for `items`; None when a reference lacks one of its keys. */
  function Encode(digest: Blob -> string, items: seq<Item>, seen: set<string>): Option<seq<Blob>> {
    if items == [] then Some([]) else
    var sha := digest(items[0].blob);
    if sha in seen && !(items[0].refKeys <= items[0].blob.Keys) then None else
    var entry := if sha in seen then Reference(items[0], sha) else Full(items[0].blob, sha);
    Prefixed([entry], Encode(digest, items[1..], seen + {sha}))
  }

  function Prefixed(done: seq<Blob>, rest: Option<seq<Blob>>): Option<seq<Blob>> {
    if rest == None then None else Some(done + rest.value)
  }

  lemma PrefixedTwice(done: seq<Blob>, entry: Blob, rest: Option<seq<Blob>>)
    ensures Prefixed(done, Prefixed([entry], rest)) == Prefixed(done + [entry], rest)
    ensures Prefixed([], rest) == rest
  {
    if rest.Some? {
      assert done + ([entry] + rest.value) == done + [entry] + rest.value;
      assert [] + rest.value == rest.value;
    }
  }

  /** A reader that remembers, per digest, the first entry that carried it. */
  function Decode(entries: seq<Blob>, memory: map<string, Blob>): seq<Blob> {
    if entries == [] then []
    else if SHA !in entries[0] then [entries[0]] + Decode(entries[1..], memory)
    else
      var sha := entries[0][SHA];
      var blob := if sha in memory then memory[sha] else entries[0] - {SHA};
      [blob] + Decode(entries[1..], memory[sha := blob])
  }

  function Blobs(items: seq<Item>): (b: seq<Blob>)
    ensures |b| == |items|
  {
    seq(|items|, i requires 0 <= i < |items| => items[i].blob)
  }

  /** The digest tells the blobs apart. (Twelve hex digits of SHA-256 in the repository.) */
  ghost predicate CollisionFree(digest: Blob -> string, blobs: set<Blob>) {
    forall a, b :: a in blobs && b in blobs && digest(a) == digest(b) ==> a == b
  }

  ghost predicate NoShaKey(blobs: set<Blob>) {
    forall b :: b in blobs ==> SHA !in b
  }

  function BlobSet(items: seq<Item>): set<Blob> {
    set i | i in items :: i.blob
  }

  /** `memory` is what a reader knows after the blobs of `known` were written. */
  ghost predicate Remembers(digest: Blob -> string, known: set<Blob>, memory: map<string, Blob>) {
    && memory.Keys == (set b | b in known :: digest(b))
    && forall b :: b in known ==> memory[digest(b)] == b
  }

  lemma HeadEntry(digest: Blob -> string, items: seq<Item>, seen: set<string>)
    requires items != [] && Encode(digest, items, seen).Some?
    ensures var entries, sha := Encode(digest, items, seen).value, digest(items[0].blob);
      && entries != [] && SHA in entries[0] && entries[0][SHA] == sha
      && (sha !in seen ==> entries[0] == Full(items[0].blob, sha))
      && Encode(digest, items[1..], seen + {sha}) == Some(entries[1..])
  {
  }

  lemma {:induction false} DecodesWhatWasEncoded(
    digest: Blob -> string, items: seq<Item>, known: set<Blob>, memory: map<string, Blob>, all: set<Blob>)
    requires Remembers(digest, known, memory) && known <= all
    requires CollisionFree(digest, all) && NoShaKey(all)
    requires forall i :: 0 <= i < |items| ==> items[i].blob in all
    ensures var entries := Encode(digest, items, memory.Keys);
      entries.Some? ==> Decode(entries.value, memory) == Blobs(items)
  {
    if items != [] && Encode(digest, items, memory.Keys).Some? {
      var b := items[0].blob;
      HeadIsRecovered(digest, items, known, memory, all);
      DecodesWhatWasEncoded(digest, items[1..], known + {b}, memory[digest(b) := b], all);
      assert Blobs(items) == [b] + Blobs(items[1..]);
    }
  }

  lemma HeadIsRecovered(
    digest: Blob -> string, items: seq<Item>, known: set<Blob>, memory: map<string, Blob>, all: set<Blob>)
    requires items != [] && Remembers(digest, known, memory) && known <= all && items[0].blob in all
    requires CollisionFree(digest, all) && NoShaKey(all) && Encode(digest, items, memory.Keys).Some?
    ensures var b := items[0].blob; var memory' := memory[digest(b) := b];
      && Remembers(digest, known + {b}, memory') && Encode(digest, items[1..], memory'.Keys).Some?
      && Decode(Encode(digest, items, memory.Keys).value, memory)
           == [b] + Decode(Encode(digest, items[1..], memory'.Keys).value, memory')
  {
    var b := items[0].blob;
    HeadEntry(digest, items, memory.Keys);
    FirstIsRecovered(digest, items[0], known, memory, all);
    assert memory[digest(b) := b].Keys == memory.Keys + {digest(b)};
  }

  lemma FirstIsRecovered(digest: Blob -> string, item: Item, known: set<Blob>, memory: map<string, Blob>, all: set<Blob>)
    requires Remembers(digest, known, memory) && known <= all && item.blob in all
    requires CollisionFree(digest, all) && NoShaKey(all)
    ensures var sha := digest(item.blob);
      (if sha in memory then memory[sha] else Full(item.blob, sha) - {SHA}) == item.blob
  {
    var sha := digest(item.blob);
    if sha in memory {
      var b :| b in known && digest(b) == sha;
      assert b == item.blob;
    } else {
      assert Full(item.blob, sha) - {SHA} == item.blob;
    }
  }

  // ------------------------------------------------------------ exactly when the trace is lossless

  /** What a reader makes of entry `i` depends on the digest of blob `i` alone. */
  lemma {:induction false} DecodedByDigest(digest: Blob -> string, items: seq<Item>, memory: map<string, Blob>, i: nat)
    requires Encode(digest, items, memory.Keys).Some? && i < |items|
    requires forall k :: k in memory ==> SHA !in memory[k]
    ensures var out := Decode(Encode(digest, items, memory.Keys).value, memory);
      && |out| == |items| && SHA !in out[i]
      && (digest(items[i].blob) in memory ==> out[i] == memory[digest(items[i].blob)])
  {
    var entries := Encode(digest, items, memory.Keys).value;
    var sha := digest(items[0].blob);
    var first := if sha in memory then memory[sha] else entries[0] - {SHA};
    HeadEntry(digest, items, memory.Keys);
    assert memory[sha := first].Keys == memory.Keys + {sha};
    LengthKept(digest, items[1..], memory[sha := first]);
    if i > 0 { DecodedByDigest(digest, items[1..], memory[sha := first], i - 1); }
  }

  lemma {:induction false} LengthKept(digest: Blob -> string, items: seq<Item>, memory: map<string, Blob>)
    requires Encode(digest, items, memory.Keys).Some?
    ensures |Decode(Encode(digest, items, memory.Keys).value, memory)| == |items|
  {
    if items != [] {
      var entries := Encode(digest, items, memory.Keys).value;
      var sha := digest(items[0].blob);
      var first := if sha in memory then memory[sha] else entries[0] - {SHA};
      HeadEntry(digest, items, memory.Keys);
      assert memory[sha := first].Keys == memory.Keys + {sha};
      LengthKept(digest, items[1..], memory[sha := first]);
    }
  }

  /** Equal digests decode to equal blobs. */
  lemma {:induction false} SameDigestSameBlob(
    digest: Blob -> string, items: seq<Item>, memory: map<string, Blob>, i: nat, j: nat)
    requires Encode(digest, items, memory.Keys).Some? && i <= j < |items|
    requires digest(items[i].blob) == digest(items[j].blob)
    requires forall k :: k in memory ==> SHA !in memory[k]
    ensures var out := Decode(Encode(digest, items, memory.Keys).value, memory);
      |out| == |items| && out[i] == out[j]
  {
    var entries := Encode(digest, items, memory.Keys).value;
    var sha := digest(items[0].blob);
    var first := if sha in memory then memory[sha] else entries[0] - {SHA};
    HeadEntry(digest, items, memory.Keys);
    assert memory[sha := first].Keys == memory.Keys + {sha};
    LengthKept(digest, items[1..], memory[sha := first]);
    if i > 0 {
      SameDigestSameBlob(digest, items[1..], memory[sha := first], i - 1, j - 1);
    } else if j > 0 {
      DecodedByDigest(digest, items[1..], memory[sha := first], j - 1);
    }
  }

  /** The written trace gives back every request if and only if no blob brings a "sha" key of its own and no
      two different blobs share a digest. */
  lemma LosslessIff(digest: Blob -> string, items: seq<Item>)
    requires Encode(digest, items, {}).Some?
    ensures Decode(Encode(digest, items, {}).value, map[]) == Blobs(items)
      <==> NoShaKey(BlobSet(items)) && CollisionFree(digest, BlobSet(items))
  {
    var empty: map<string, Blob> := map[];
    assert empty.Keys == {};
    var out := Decode(Encode(digest, items, {}).value, empty);
    if NoShaKey(BlobSet(items)) && CollisionFree(digest, BlobSet(items)) {
      DecodesWhatWasEncoded(digest, items, {}, empty, BlobSet(items));
    }
    if out == Blobs(items) {
      forall b | b in BlobSet(items) ensures SHA !in b {
        var i :| 0 <= i < |items| && items[i].blob == b;
        DecodedByDigest(digest, items, empty, i);
        assert out[i] == Blobs(items)[i];
      }
      forall a, b | a in BlobSet(items) && b in BlobSet(items) && digest(a) == digest(b) ensures a == b {
        var i :| 0 <= i < |items| && items[i].blob == a;
        var j :| 0 <= j < |items| && items[j].blob == b;
        SameDigestSameBlob(digest, items, empty, if i <= j then i else j, if i <= j then j else i);
        assert out[i] == Blobs(items)[i] && out[j] == Blobs(items)[j];
      }
    }
  }

  // ------------------------------------------------------------ size

  /** The digest of item `i` occurs there for the first time. */
  predicate IsFirst(digest: Blob -> string, items: seq<Item>, seen: set<string>, i: nat)
    requires i < |items|
  {
    digest(items[i].blob) !in seen + Digests(digest, items[..i])
  }

  /** How many items are first occurrences. */
  function Firsts(digest: Blob -> string, items: seq<Item>, seen: set<string>): nat {
    if items == [] then 0
    else
      var n := |items| - 1;
      Firsts(digest, items[..n], seen) + if IsFirst(digest, items, seen, n) then 1 else 0
  }

  function Digests(digest: Blob -> string, items: seq<Item>): set<string> {
    set i | i in items :: digest(i.blob)
  }

  lemma SplitDigests(digest: Blob -> string, items: seq<Item>)
    requires items != []
    ensures Digests(digest, items) == {digest(items[0].blob)} + Digests(digest, items[1..])
  {
    assert items == [items[0]] + items[1..];
    forall d | d in Digests(digest, items) ensures d in {digest(items[0].blob)} + Digests(digest, items[1..]) {
      var i :| i in items && digest(i.blob) == d;
      if i != items[0] { assert i in items[1..]; }
    }
  }

  lemma OneMore(before: set<string>, seen: set<string>, sha: string)
    ensures |before + {sha} - seen| == |before - seen| + if sha !in seen + before then 1 else 0
  {
    if sha in seen + before {
      assert before + {sha} - seen == before - seen;
    } else {
      assert before + {sha} - seen == (before - seen) + {sha};
    }
  }

  lemma {:induction false} FirstsAreNewDigests(digest: Blob -> string, items: seq<Item>, seen: set<string>)
    ensures Firsts(digest, items, seen) == |Digests(digest, items) - seen|
  {
    if items != [] {
      var n := |items| - 1;
      FirstsAreNewDigests(digest, items[..n], seen);
      DigestsPush(digest, items);
      OneMore(Digests(digest, items[..n]), seen, digest(items[n].blob));
    }
  }

  lemma DigestsPush(digest: Blob -> string, items: seq<Item>)
    requires items != []
    ensures Digests(digest, items) == Digests(digest, items[..|items| - 1]) + {digest(items[|items| - 1].blob)}
  {
    var n := |items| - 1;
    DigestsOfConcat(digest, items[..n], [items[n]]);
    assert items == items[..n] + [items[n]];
  }

  lemma DigestsOfConcat(digest: Blob -> string, xs: seq<Item>, ys: seq<Item>)
    ensures Digests(digest, xs + ys) == Digests(digest, xs) + Digests(digest, ys)
    ensures |ys| == 1 ==> Digests(digest, ys) == {digest(ys[0].blob)}
  {
    forall d | d in Digests(digest, xs) + Digests(digest, ys) ensures d in Digests(digest, xs + ys) {
      var i :| (i in xs || i in ys) && digest(i.blob) == d;
      assert i in xs + ys;
    }
  }

  /** Entry `i` is full if item `i` is a first occurrence and a reference otherwise. */
  lemma {:induction false} EntryAt(digest: Blob -> string, items: seq<Item>, seen: set<string>, i: nat)
    requires Encode(digest, items, seen).Some? && i < |items|
    ensures var entries, sha := Encode(digest, items, seen).value, digest(items[i].blob);
      && |entries| == |items| && (!IsFirst(digest, items, seen, i) ==> items[i].refKeys <= items[i].blob.Keys)
      && entries[i] == if IsFirst(digest, items, seen, i) then Full(items[i].blob, sha) else Reference(items[i], sha)
  {
    var sha := digest(items[0].blob);
    HeadEntry(digest, items, seen);
    if i > 0 {
      EntryAt(digest, items[1..], seen + {sha}, i - 1);
      SplitDigests(digest, items[..i]);
      assert items[..i][1..] == items[1..][..i - 1];
    } else {
      SameLength(digest, items[1..], seen + {sha});
    }
  }

  lemma {:induction false} SameLength(digest: Blob -> string, items: seq<Item>, seen: set<string>)
    ensures Encode(digest, items, seen).Some? ==> |Encode(digest, items, seen).value| == |items|
  {
    if items != [] { SameLength(digest, items[1..], seen + {digest(items[0].blob)}); }
  }

  /** What is written for two stretches of items is written for them one after the other. */
  lemma {:induction false} EncodeAppend(digest: Blob -> string, xs: seq<Item>, ys: seq<Item>, seen: set<string>)
    ensures var first := Encode(digest, xs, seen);
      Encode(digest, xs + ys, seen) ==
        if first == None then None else Prefixed(first.value, Encode(digest, ys, seen + Digests(digest, xs)))
  {
    if xs == [] {
      assert xs + ys == ys;
      assert Digests(digest, xs) == {} && seen + Digests(digest, xs) == seen;
      PrefixedTwice([], map[], Encode(digest, ys, seen));
    } else {
      var sha := digest(xs[0].blob);
      assert (xs + ys)[0] == xs[0] && (xs + ys)[1..] == xs[1..] + ys;
      EncodeAppend(digest, xs[1..], ys, seen + {sha});
      SplitDigests(digest, xs);
      var rest := seen + {sha} + Digests(digest, xs[1..]);
      assert rest == seen + Digests(digest, xs);
      if Encode(digest, xs, seen).Some? {
        HeadEntry(digest, xs, seen);
        PrefixedConcat(Encode(digest, xs, seen).value, Encode(digest, ys, rest));
      }
    }
  }

  lemma PrefixedConcat(entries: seq<Blob>, rest: Option<seq<Blob>>)
    requires entries != []
    ensures Prefixed([entries[0]], Prefixed(entries[1..], rest)) == Prefixed(entries, rest)
  {
    if rest.Some? { assert [entries[0]] + (entries[1..] + rest.value) == entries + rest.value; }
  }

  lemma {:induction false} ImageSize(digest: Blob -> string, blobs: set<Blob>)
    requires CollisionFree(digest, blobs)
    ensures |set b | b in blobs :: digest(b)| == |blobs|
  {
    if blobs != {} {
      var b :| b in blobs;
      ImageSize(digest, blobs - {b});
      assert (set x | x in blobs :: digest(x)) == (set x | x in blobs - {b} :: digest(x)) + {digest(b)};
    } else {
      assert (set b | b in blobs :: digest(b)) == {};
    }
  }

  /** A trace holds each distinct blob in full exactly once and is otherwise made of references. */
  lemma OneFullEntryPerBlob(digest: Blob -> string, items: seq<Item>)
    requires CollisionFree(digest, BlobSet(items)) && Encode(digest, items, {}).Some?
    ensures Firsts(digest, items, {}) == |BlobSet(items)|
    ensures var entries := Encode(digest, items, {}).value;
      |entries| == |items| && forall i :: 0 <= i < |items| ==> Written(digest, items, i, entries[i])
  {
    FirstsAreNewDigests(digest, items, {});
    ImageSize(digest, BlobSet(items));
    assert Digests(digest, items) - {} == (set b | b in BlobSet(items) :: digest(b));
    SameLength(digest, items, {});
    forall i | 0 <= i < |items| ensures Written(digest, items, i, Encode(digest, items, {}).value[i]) {
      WrittenAt(digest, items, i);
    }
  }

  lemma WrittenAt(digest: Blob -> string, items: seq<Item>, i: nat)
    requires CollisionFree(digest, BlobSet(items)) && Encode(digest, items, {}).Some? && i < |items|
    requires |Encode(digest, items, {}).value| == |items|
    ensures Written(digest, items, i, Encode(digest, items, {}).value[i])
  {
    hide CollisionFree, Full, Reference, IsStamped, IsFirst;
    EntryAt(digest, items, {}, i);
    FirstIffNew(digest, items, i);
    StampedEntries(items[i], digest(items[i].blob));
  }

  lemma FirstIffNew(digest: Blob -> string, items: seq<Item>, i: nat)
    requires CollisionFree(digest, BlobSet(items)) && i < |items|
    ensures IsFirst(digest, items, {}, i) <==> forall j :: 0 <= j < i ==> items[j].blob != items[i].blob
  {
    if IsFirst(digest, items, {}, i) {
      forall j | 0 <= j < i ensures items[j].blob != items[i].blob {
        assert items[j] in items[..i];
      }
    } else {
      var item :| item in items[..i] && digest(item.blob) == digest(items[i].blob);
      var j :| 0 <= j < i && items[j] == item;
      assert items[j].blob in BlobSet(items) && items[i].blob in BlobSet(items);
    }
  }

  /** In full if the blob is new, as a reference if an earlier item has the same blob. */
  ghost predicate Written(digest: Blob -> string, items: seq<Item>, i: nat, entry: Blob)
    requires i < |items|
  {
    if IsFirst(digest, items, {}, i)
    then
      IsStamped(entry, items[i].blob, items[i].blob.Keys, digest(items[i].blob))
      && forall j :: 0 <= j < i ==> items[j].blob != items[i].blob
    else
      && items[i].refKeys <= items[i].blob.Keys
      && IsStamped(entry, items[i].blob, items[i].refKeys, digest(items[i].blob))
      && exists j :: 0 <= j < i && items[j].blob == items[i].blob
  }

  /** The entry is these keys of the blob, with the digest. */
  ghost predicate IsStamped(entry: Blob, blob: Blob, keys: set<string>, sha: string)
    requires keys <= blob.Keys
  {
    entry.Keys == keys + {"sha"} && entry["sha"] == sha && forall k :: k in keys && k != "sha" ==> entry[k] == blob[k]
  }

  lemma StampedEntries(i: Item, sha: string)
    ensures IsStamped(Full(i.blob, sha), i.blob, i.blob.Keys, sha)
    ensures i.refKeys <= i.blob.Keys ==> IsStamped(Reference(i, sha), i.blob, i.refKeys, sha)
  {
  }

  // ------------------------------------------------------------ the writer

  class TraceWriter {
    const digest: Blob -> string
    var seen: set<string>
    ghost var written: seq<Item>
    ghost var trace: seq<Blob>
    ghost var broken: bool

    /** Until a reference lacks one of its keys, the trace encodes everything written so far. */
    ghost predicate Valid()
      reads this
    {
      !broken ==> seen == Digests(digest, written) && Encode(digest, written, {}) == Some(trace)
    }

    constructor (digest: Blob -> string)
      ensures Valid() && this.digest == digest && seen == {} && written == [] && trace == [] && !broken
    {
      this.digest, seen, written, trace, broken := digest, {}, [], [], false;
    }

    /** `_dedup_request_blob`. */
    method Dedup(item: Item) returns (entry: Option<Blob>)
      modifies this`seen
      ensures seen == old(seen) + {digest(item.blob)}
      ensures entry == if digest(item.blob) !in old(seen) then Some(Full(item.blob, digest(item.blob)))
                       else if item.refKeys <= item.blob.Keys then Some(Reference(item, digest(item.blob)))
                       else None
    {
      var sha := digest(item.blob);
      if sha in seen {
        seen := seen + {sha};
        if !(item.refKeys <= item.blob.Keys) { return None; }
        return Some((map k | k in item.refKeys :: item.blob[k])[SHA := sha]);
      }
      seen := seen + {sha};
      entry := Some(item.blob[SHA := sha]);
    }

    /** `_slim_completion_event`: the request messages in order, then the tools. */
    method Slim(items: seq<Item>) returns (entries: Option<seq<Blob>>)
      modifies this`seen
      ensures entries == Encode(digest, items, old(seen))
      ensures entries.Some? ==> seen == old(seen) + Digests(digest, items)
    {
      var done, i := [], 0;
      assert items[0..] == items;
      PrefixedTwice([], map[], Encode(digest, items, seen));
      while i < |items|
        invariant i <= |items| && |done| == i
        invariant seen == old(seen) + Digests(digest, items[..i])
        invariant Encode(digest, items, old(seen)) == Prefixed(done, Encode(digest, items[i..], seen))
      {
        assert items[i..][0] == items[i] && items[i..][1..] == items[i + 1..];
        assert items[..i + 1] == items[..i] + [items[i]];
        var entry := Dedup(items[i]);
        if entry == None { return None; }
        PrefixedTwice(done, entry.value, Encode(digest, items[i + 1..], seen));
        done := done + [entry.value];
        i := i + 1;
      }
      assert items[..i] == items && items[i..] == [] && done + [] == done;
      entries := Some(done);
    }

    /** One completion event after another: the trace is the encoding of all of them. */
    method Append(items: seq<Item>) returns (entries: Option<seq<Blob>>)
      requires Valid()
      modifies this
      ensures Valid() && broken == (old(broken) || entries == None)
      ensures entries == Encode(digest, items, old(seen))
      ensures entries.Some? ==> trace == old(trace) + entries.value && written == old(written) + items
    {
      EncodeAppend(digest, written, items, {});
      DigestsOfConcat(digest, written, items);
      assert {} + Digests(digest, written) == Digests(digest, written);
      entries := Slim(items);
      if entries == None {
        broken := true;
      } else {
        written, trace := written + items, trace + entries.value;
      }
    }
  }
}
