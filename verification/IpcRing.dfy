/** The byte rings of the IPC transports: ipc_ring_pull and ipc_ring_push (include/ipc_ring.h),
    and the pipe's own pipe_copy_out and pipe_copy_in (kernel/ipc.c).  Each refines one
    sequence of queued bytes, across wrap-around. */
module IpcRing {
  import opened Bytes

  /** The queued bytes: len of them from head on, wrapping at the end of the buffer. */
  function Queued(buf: seq<byte>, head: nat, len: nat): (r: seq<byte>)
    requires len <= |buf| && (buf != [] ==> head < |buf|)
    ensures |r| == len
  {
    seq(len, i requires 0 <= i < len => buf[(head + i) % |buf|])
  }

  lemma WrapAt(head: nat, i: nat, cap: nat)
    requires head < cap && i < cap
    ensures (head + i) % cap == if head + i < cap then head + i else head + i - cap
  {
    if head + i >= cap {
      assert (head + i) % cap == (head + i - cap) % cap;
    }
  }

  lemma QueuedAt(buf: seq<byte>, head: nat, len: nat, i: nat)
    requires i < len <= |buf| && head < |buf|
    ensures Queued(buf, head, len)[i] == buf[if head + i < |buf| then head + i else head + i - |buf|]
  {
    WrapAt(head, i, |buf|);
  }

  lemma NextHead(head: nat, seg: nat, cap: nat)
    requires head < cap && head + seg <= cap
    ensures (head + seg) % cap == if head + seg == cap then 0 else head + seg
  {
  }

  /** Taking one segment off the front. */
  lemma Pulled(buf: seq<byte>, head: nat, len: nat, seg: nat, head': nat)
    requires head < |buf| && seg <= len <= |buf| && head + seg <= |buf|
    requires head' == if head + seg == |buf| then 0 else head + seg
    ensures buf[head..head + seg] == Queued(buf, head, len)[..seg]
    ensures Queued(buf, head', len - seg) == Queued(buf, head, len)[seg..]
  {
    hide Queued;
    var q, rest := Queued(buf, head, len), Queued(buf, head', len - seg);
    forall i | 0 <= i < seg ensures q[i] == buf[head..head + seg][i] {
      QueuedAt(buf, head, len, i);
    }
    forall i | 0 <= i < len - seg ensures rest[i] == q[seg..][i] {
      QueuedAt(buf, head', len - seg, i);
      QueuedAt(buf, head, len, seg + i);
    }
  }

  /** Putting one segment behind the end. */
  lemma Pushed(buf: seq<byte>, head: nat, len: nat, data: seq<byte>)
    requires buf != [] && head < |buf| && len + |data| <= |buf| && (head + len) % |buf| + |data| <= |buf|
    ensures Queued(Splice(buf, (head + len) % |buf|, data), head, len + |data|) == Queued(buf, head, len) + data
  {
    var cap, tail, n := |buf|, (head + len) % |buf|, |data|;
    var buf' := Splice(buf, tail, data);
    if n > 0 {
      WrapAt(head, len, cap);
      forall i | 0 <= i < len + n ensures Queued(buf', head, len + n)[i] == (Queued(buf, head, len) + data)[i] {
        QueuedAt(buf', head, len + n, i);
        if i < len { QueuedAt(buf, head, len, i); }
      }
    } else {
      assert buf' == buf;
    }
  }

  /** struct ipc_ring */
  class Ring {
    const buf: array<byte>
    var head: nat
    var len: nat

    ghost predicate Valid()
      reads this, buf
    {
      len <= buf.Length && (buf.Length > 0 ==> head < buf.Length)
    }

    ghost function Contents(): (r: seq<byte>)
      requires Valid()
      reads this, buf
      ensures |r| == len
    {
      Queued(buf[..], head, len)
    }

    constructor (cap: nat)
      ensures Valid() && fresh(buf) && buf.Length == cap && Contents() == []
    {
      buf := new byte[cap](_ => 0);
      head, len := 0, 0;
    }

    /** ipc_ring_pull */
    method Pull(n: nat) returns (out: seq<byte>)
      requires Valid()
      modifies this`head, this`len
      ensures Valid() && |out| == if n < |old(Contents())| then n else |old(Contents())|
      ensures out + Contents() == old(Contents())
    {
      hide Queued;
      ghost var q := Contents();
      var want := if n > len then len else n;
      var had := len;
      out := [];
      assert q[..0] == [] && q[0..] == q;
      while |out| < want
        invariant |out| <= want <= had <= buf.Length && len == had && (buf.Length > 0 ==> head < buf.Length)
        invariant out == q[..|out|] && Queued(buf[..], head, had - |out|) == q[|out|..]
        decreases want - |out|
      {
        var seg := buf.Length - head;
        if seg > want - |out| { seg := want - |out|; }
        NextHead(head, seg, buf.Length);
        Pulled(buf[..], head, had - |out|, seg, (head + seg) % buf.Length);
        assert q[..|out|] + q[|out|..][..seg] == q[..|out| + seg];
        assert q[|out|..][seg..] == q[|out| + seg..];
        out := out + buf[head..head + seg];
        head := (head + seg) % buf.Length;
      }
      len := len - |out|;
      assert q[..|out|] + q[|out|..] == q;
    }

    /** ipc_ring_push */
    method Push(src: seq<byte>) returns (done: nat)
      requires Valid()
      modifies this`len, buf
      ensures Valid() && done == if |src| < buf.Length - old(len) then |src| else buf.Length - old(len)
      ensures Contents() == old(Contents()) + src[..done]
    {
      hide Queued;
      ghost var q := Contents();
      var n := if |src| > buf.Length - len then buf.Length - len else |src|;
      done := 0;
      assert q + src[..0] == q;
      while done < n
        invariant 0 <= done <= n <= |src| && len == |q| + done && |q| + n <= buf.Length && (buf.Length > 0 ==> head < buf.Length)
        invariant Contents() == q + src[..done]
        decreases n - done
      {
        var tail := (head + len) % buf.Length;
        var seg := buf.Length - tail;
        if seg > n - done { seg := n - done; }
        Pushed(buf[..], head, len, src[done..done + seg]);
        assert q + src[..done] + src[done..done + seg] == q + src[..done + seg];
        CopyInto(buf, tail, src[done..done + seg]);
        len := len + seg;
        done := done + seg;
      }
    }
  }
}
