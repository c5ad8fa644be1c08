/** Copying between file objects that read and write as much as they please. */
module FileCopy {
  import opened Basics

  type Byte = b: int | 0 <= b < 256

  type Bytes = seq<Byte>

  /** A file object open for reading. */
  class Source {
    const content: Bytes
    var position: nat

    ghost predicate Valid() reads this { position <= |content| }

    function Left(): Bytes
      requires Valid()
      reads this
    {
      content[position..]
    }

    constructor (content: Bytes)
      ensures Valid() && this.content == content && Left() == content
    {
      this.content, position := content, 0;
    }

    /** Reads at most `size` bytes, and none only at the end. */
    method Read(size: nat) returns (buffer: Bytes)
      requires Valid() && 0 < size
      modifies this
      ensures Valid() && |buffer| <= size && old(Left()) == buffer + Left()
      ensures buffer == [] <==> old(Left()) == []
    {
      if position == |content| { return []; }
      var n: nat :| 1 <= n <= size && n <= |content| - position;
      buffer := content[position..position + n];
      position := position + n;
    }
  }

  /** A file object open for writing. */
  class Sink {
    var content: Bytes
    /** Whether some write was not done at all. */
    var refused: bool

    constructor ()
      ensures content == [] && !refused
    {
      content, refused := [], false;
    }

    /** Writes at least one byte and says how many. */
    method Write(buffer: Bytes) returns (written: nat)
      requires buffer != []
      modifies this`content
      ensures 1 <= written <= |buffer| && content == old(content) + buffer[..written]
    {
      written :| 1 <= written <= |buffer|;
      content := content + buffer[..written];
    }

    /** As above, but an unbuffered file object may also write nothing and say so. */
    method TryWrite(buffer: Bytes) returns (written: Option<nat>)
      requires buffer != []
      modifies this
      ensures written.Some? ==>
        1 <= written.value <= |buffer| && content == old(content) + buffer[..written.value] && refused == old(refused)
      ensures written.None? ==> content == old(content) && refused
    {
      var ok: bool := *;
      if ok {
        var n := Write(buffer);
        return Some(n);
      }
      refused := true;
      written := None;
    }
  }

  lemma Shift(a: Bytes, b: Bytes, n: nat)
    requires n <= |b|
    ensures (a + b[..n]) + b[n..] == a + b
  {
    assert b == b[..n] + b[n..];
  }

  /** The inner loop: the whole buffer is written. */
  method WriteAll(dst: Sink, data: Bytes)
    modifies dst`content
    ensures dst.content == old(dst.content) + data
  {
    var buffer := data;
    while buffer != []
      invariant dst.content + buffer == old(dst.content) + data
      decreases |buffer|
    {
      ghost var before := dst.content;
      var written := dst.Write(buffer);
      Shift(before, buffer, written);
      buffer := buffer[written..];
    }
  }

  /** `copyfileobj`: everything that is left is copied, once and in order. */
  method CopyFileObject(src: Source, dst: Sink, bufferSize: nat)
    requires src.Valid() && 0 < bufferSize
    modifies src, dst`content
    ensures src.Valid() && src.Left() == [] && dst.content == old(dst.content) + old(src.Left())
  {
    while true
      invariant src.Valid() && dst.content + src.Left() == old(dst.content) + old(src.Left())
      decreases |src.Left()|
    {
      ghost var before, left := dst.content, src.Left();
      var buffer := src.Read(bufferSize);
      if buffer == [] { return; }
      WriteAll(dst, buffer);
      ConcatIsAssociative(before, buffer, src.Left());
    }
  }

  /** The digest of everything that is read. */
  method DigestOf(src: Source, bufferSize: nat, hash: Bytes -> string) returns (digest: string)
    requires src.Valid() && 0 < bufferSize
    modifies src
    ensures src.Valid() && digest == hash(old(src.Left()))
  {
    ghost var all := src.Left();
    var fed: Bytes := [];
    var buffer := src.Read(bufferSize);
    while buffer != []
      invariant src.Valid() && fed + (buffer + src.Left()) == all && (buffer == [] ==> src.Left() == [])
      decreases |buffer| + |src.Left()|
    {
      ConcatIsAssociative(fed, buffer, src.Left());
      fed := fed + buffer;
      buffer := src.Read(bufferSize);
    }
    assert fed == all;
    digest := hash(fed);
  }

  /** Gives up on the rest of the buffer at the first write that is refused. */
  method WriteWhileAccepted(dst: Sink, data: Bytes)
    modifies dst
    ensures !dst.refused ==> !old(dst.refused) && dst.content == old(dst.content) + data
    ensures dst.refused && !old(dst.refused) ==> |dst.content| < |old(dst.content)| + |data|
    ensures |dst.content| <= |old(dst.content)| + |data| && (old(dst.refused) ==> dst.refused)
  {
    var buffer := data;
    while buffer != []
      invariant dst.content + buffer == old(dst.content) + data && dst.refused == old(dst.refused)
      decreases |buffer|
    {
      ghost var before := dst.content;
      var written := dst.TryWrite(buffer);
      if written.None? {
        assert |before + buffer| == |old(dst.content) + data|;
        return;
      }
      Shift(before, buffer, written.value);
      buffer := buffer[written.value..];
    }
  }

  /**
    The loop of `put_file_from_fobj`, which digests and saves at the same time: what it saves is what it
    digested if and only if no write was refused.
   */
  method SaveAndDigest(src: Source, dst: Sink, chunkSize: nat, hash: Bytes -> string) returns (digest: string)
    requires src.Valid() && 0 < chunkSize && dst.content == [] && !dst.refused
    modifies src, dst
    ensures digest == hash(old(src.Left()))
    ensures dst.content == old(src.Left()) <==> !dst.refused
  {
    ghost var all := src.Left();
    var fed: Bytes := [];
    var buffer := src.Read(chunkSize);
    while buffer != []
      invariant src.Valid() && fed + (buffer + src.Left()) == all && (buffer == [] ==> src.Left() == [])
      invariant !dst.refused ==> dst.content == fed
      invariant dst.refused ==> |dst.content| < |fed|
      decreases |buffer| + |src.Left()|
    {
      ConcatIsAssociative(fed, buffer, src.Left());
      fed := fed + buffer;
      WriteWhileAccepted(dst, buffer);
      buffer := src.Read(chunkSize);
    }
    assert fed == all;
    digest := hash(fed);
  }
}
