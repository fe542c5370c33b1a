/**
 Messages and the strings they look into. A message is a list of views (`DataBuf`); the bytes live
 in strings of their own, owned through a growing vector of pointers beside the message.
 */
module Buffers {
  import opened Options

  class Str {
    var bytes: Bytes

    /** `data()` as a `std::string` keeps it. */
    function Memory(): Bytes
      reads this
    {
      bytes + [0]
    }

    constructor (bytes: Bytes)
      ensures this.bytes == bytes
    {
      this.bytes := bytes;
    }
  }

  /** An address, given by the string it is the start of, and a length. */
  datatype DataBuf = DataBuf(addr: Str, len: nat)

  /** `MsgDataContainer`: a vector of owning pointers that moves to a larger array when it is full. */
  class Container {
    var slots: array<Str?>
    var size: nat

    ghost var Strings: seq<Str>

    ghost predicate Valid()
      reads this, slots
    {
      |Strings| == size <= slots.Length && forall i :: 0 <= i < size ==> slots[i] == Strings[i]
    }

    constructor ()
      ensures Valid() && Strings == [] && fresh(slots)
    {
      slots := new Str?[0];
      size := 0;
      Strings := [];
    }

    method PushBack(str: Str)
      requires Valid()
      modifies this, slots
      ensures Valid() && Strings == old(Strings) + [str]
      ensures slots == old(slots) || fresh(slots)
    {
      if size == slots.Length {
        var larger := new Str?[2 * size + 1](_ => null);
        for i := 0 to size
          modifies larger
          invariant forall j :: 0 <= j < i ==> larger[j] == slots[j]
        {
          larger[i] := slots[i];
        }
        slots := larger;
      }
      slots[size] := str;
      size := size + 1;
      Strings := Strings + [str];
    }
  }

  /** A message together with the container its views look into. */
  class Message {
    const data: Container
    var bufs: seq<DataBuf>

    /** What the buffers denote. */
    ghost var Contents: seq<Bytes>

    ghost function Strs(): set<object>
      reads this
    {
      set i: nat | i < |bufs| :: bufs[i].addr as object
    }

    /** Buffer i denotes the whole of string i of the container, and the strings are distinct. */
    ghost predicate Valid()
      reads this, data, data.slots, Strs()
    {
      && data.Valid()
      && |bufs| == |data.Strings| == |Contents|
      && (forall i :: 0 <= i < |bufs| ==>
            && bufs[i].addr == data.Strings[i]
            && bufs[i].len == |bufs[i].addr.bytes|
            && Contents[i] == bufs[i].addr.bytes)
      && (forall i, j :: 0 <= i < j < |bufs| ==> bufs[i].addr != bufs[j].addr)
    }

    constructor ()
      ensures Valid() && Contents == [] && fresh(data) && fresh(data.slots)
    {
      data := new Container();
      bufs := [];
      Contents := [];
    }

    /**
     A string of its own is made, handed to the container, and viewed: what request creation, the
     gRPC read loops and both Cap'n Proto `sendChunk` do. Earlier views stay as they are and denote
     what they denoted, though the container may have moved.
     */
    method Append(bytes: Bytes)
      requires Valid()
      modifies this, data, data.slots
      ensures Valid() && Contents == old(Contents) + [bytes]
      ensures |bufs| == old(|bufs|) + 1 && bufs[..old(|bufs|)] == old(bufs) && fresh(bufs[old(|bufs|)].addr)
      ensures data.slots == old(data.slots) || fresh(data.slots)
    {
      var str := new Str(bytes);
      data.PushBack(str);
      bufs := bufs + [DataBuf(str, |str.bytes|)];
      Contents := Contents + [bytes];
    }

    /** What may be read from the address of buffer i on: its string's data and the zero byte behind it. */
    method Memory(i: nat) returns (bytes: Bytes)
      requires Valid() && i < |bufs|
      ensures bytes == Contents[i] + [0]
    {
      bytes := bufs[i].addr.Memory();
    }

    /** The bytes that buffer i denotes, copied out. */
    method Read(i: nat) returns (bytes: Bytes)
      requires Valid() && i < |bufs|
      ensures bytes == Contents[i]
    {
      bytes := bufs[i].addr.bytes[..bufs[i].len];
    }

    /** Everything the message denotes, for a handler that works on values. */
    method ReadAll() returns (contents: seq<Bytes>)
      requires Valid()
      ensures contents == Contents
    {
      contents := [];
      for i := 0 to |bufs|
        invariant contents == Contents[..i]
      {
        var bytes := Read(i);
        contents := contents + [bytes];
      }
    }
  }
}
