/** Comparing two files through fixed buffers while reads may return short counts or fail at any time. */
module FileStreams {
  datatype Option<T> = None | Some(value: T)

  type Byte = x: nat | x < 256

  const CHUNK: nat := 262144

  function Min(a: nat, b: nat): nat { if a <= b then a else b }

  /** An open file: what is left to read starts at `position`. Reads fail only where the file is faulty. */
  class Stream {
    const content: seq<Byte>
    const faulty: bool
    var position: nat

    predicate Valid()
      reads this
    {
      position <= |content|
    }

    constructor (bytes: seq<Byte>, fails: bool)
      ensures Valid() && content == bytes && faulty == fails && position == 0
    {
      content, faulty, position := bytes, fails, 0;
    }

    /** One read into buffer[at..]: it may fail, it may return fewer bytes than asked for, and it returns
        none only at the end of the file or for an empty request. */
    method Read(buffer: array<Byte>, at: nat) returns (count: Option<nat>)
      requires Valid() && at <= buffer.Length
      modifies this, buffer
      ensures Valid() && buffer[..at] == old(buffer[..at]) && (count.None? ==> faulty)
      ensures count.Some? ==>
                position == old(position) + count.value && at + count.value <= buffer.Length &&
                buffer[at..at + count.value] == content[old(position)..position]
      ensures count == Some(0) <==> count.Some? && (old(position) == |content| || at == buffer.Length)
    {
      var fails: bool := *;
      if faulty && fails {
        return None;
      }
      var most := Min(|content| - position, buffer.Length - at);
      var n: nat :| n <= most && (n == 0 ==> most == 0);
      var i := 0;
      while i < n
        invariant i <= n && buffer[..at] == old(buffer[..at])
        invariant buffer[at..at + i] == content[position..position + i]
        modifies buffer
      {
        buffer[at + i] := content[position + i];
        i := i + 1;
      }
      position := position + n;
      return Some(n);
    }
  }

  /** Fills the buffer as far as the file allows, however short the reads are. */
  method ReadFull(file: Stream, buffer: array<Byte>) returns (filled: Option<nat>)
    requires file.Valid()
    modifies file, buffer
    ensures file.Valid() && (filled.None? ==> file.faulty)
    ensures filled.Some? ==>
              filled.value == Min(|file.content| - old(file.position), buffer.Length) &&
              file.position == old(file.position) + filled.value &&
              buffer[..filled.value] == file.content[old(file.position)..file.position]
  {
    var n := 0;
    while n < buffer.Length
      invariant file.Valid() && n <= buffer.Length && file.position == old(file.position) + n
      invariant buffer[..n] == file.content[old(file.position)..file.position]
      decreases buffer.Length - n
    {
      var count := file.Read(buffer, n);
      if count.None? {
        return None;
      }
      if count.value == 0 {
        break;
      }
      ghost var m := n;
      n := n + count.value;
      assert buffer[..n] == buffer[..m] + buffer[m..n];
    }
    return Some(n);
  }

  /** Byte equality in constant memory: an answer is the truth, and only a failing read prevents one. */
  method FilesEqualStreaming(a: seq<Byte>, faultyA: bool, b: seq<Byte>, faultyB: bool) returns (equal: Option<bool>)
    ensures equal.Some? ==> equal.value == (a == b)
    ensures equal.None? ==> faultyA || faultyB
  {
    var fa := new Stream(a, faultyA);
    var fb := new Stream(b, faultyB);
    var bufferA := new Byte[CHUNK];
    var bufferB := new Byte[CHUNK];
    while true
      invariant fa.Valid() && fb.Valid() && fa.position == fb.position && a[..fa.position] == b[..fb.position]
      decreases |a| - fa.position
    {
      ghost var p := fa.position;
      var na := ReadFull(fa, bufferA);
      if na.None? {
        return None;
      }
      var nb := ReadFull(fb, bufferB);
      if nb.None? {
        return None;
      }
      if na.value != nb.value || bufferA[..na.value] != bufferB[..nb.value] {
        ChunksDiffer(a, b, p, na.value, nb.value);
        return Some(false);
      }
      if na.value == 0 {
        return Some(true);
      }
      assert a[..fa.position] == a[..p] + a[p..fa.position];
      assert b[..fb.position] == b[..p] + b[p..fb.position];
    }
  }

  /** Files whose next chunks differ are different files. */
  lemma ChunksDiffer(a: seq<Byte>, b: seq<Byte>, p: nat, na: nat, nb: nat)
    requires p <= |a| && p <= |b| && na == Min(|a| - p, CHUNK) && nb == Min(|b| - p, CHUNK)
    requires na != nb || a[p..p + na] != b[p..p + nb]
    ensures a != b
  {
  }
}
