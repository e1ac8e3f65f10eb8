/** The section buffer as the source has it: counters and flags in front of an octet array, updated in place.
 *  Every method is proved against the functions of module `SectionBuf`. */
module SectionBuffer {
  import opened Common
  import opened SectionBuf
  import SectionPayloads

  class SectionBuffer {
    const data: array<byte>
    const max: nat
    var count: nat
    var len: nat
    var header: bool
    var waitPdu: bool

    /** The buffer has room for the largest section, and no more than that is ever stored. */
    ghost predicate Valid()
      reads this, data
    {
      data.Length == max && count <= max && Good(View())
    }

    ghost function View(): Buf
      requires count <= data.Length
      reads this, data
    {
      Buf(max, data[..count], len, header, waitPdu)
    }

    /** `section_buf_init`, for a maximum it accepts. */
    constructor (max: nat)
      requires max >= HDR
      ensures Valid() && fresh(data) && View() == Init(max, true)
    {
      this.max := max;
      data := new byte[max](_ => 0);
      count, len, header, waitPdu := 0, HDR, false, true;
    }

    /** `section_buf_reset` */
    method ResetBuffer()
      requires Valid()
      modifies this
      ensures Valid() && View() == Reset(old(View()))
    {
      count := 0;
      len := HDR;
      header := false;
    }

    method Remaining() returns (n: int)
      requires Valid()
      ensures n == View().len - |View().data|
    {
      n := len - count;
    }

    /** `memcpy` of the first `n` octets of the fragment behind what is stored. */
    method Copy(frag: seq<byte>, n: nat)
      requires n <= |frag| && count + n <= data.Length
      modifies this`count, data
      ensures count == old(count) + n && data[..count] == old(data[..count]) + frag[..n]
    {
      var i := 0;
      while i < n
        modifies data
        invariant i <= n
        invariant data[..count + i] == old(data[..count]) + frag[..i]
      {
        data[count + i] := frag[i];
        assert data[..count + i] == old(data[..count]) + frag[..i];
        assert data[..count + (i + 1)] == data[..count + i] + [frag[i]];
        assert frag[..i + 1] == frag[..i] + [frag[i]];
        i := i + 1;
      }
      count := count + n;
    }

    /** `section_buf_add` */
    method Add(fragment: seq<byte>) returns (used: nat, status: Status)
      requires Valid()
      modifies this, data
      ensures Valid() && Result(View(), used, status) == SectionBuf.Add(old(View()), fragment)
    {
      if header && len == count { return 0, Complete; }
      used := 0;
      if count == 0 {
        used := SkipPadding(fragment);
        if used == |fragment| { return used, Pending; }
      }
      if !header {
        used, status := CollectHeader(fragment[used..], used);
      } else {
        used, status := FillUp(fragment[used..], used);
      }
    }

    static method SkipPadding(fragment: seq<byte>) returns (n: nat)
      ensures n == Padding(fragment)
    {
      n := 0;
      while n < |fragment| && fragment[n] == PAD
        invariant n <= |fragment| && n + Padding(fragment[n..]) == Padding(fragment)
      {
        assert fragment[n..][1..] == fragment[n + 1..];
        n := n + 1;
      }
    }

    /** The header, and when it is complete the octets behind it. */
    method CollectHeader(frag: seq<byte>, before: nat) returns (used: nat, status: Status)
      requires Valid() && !header
      modifies this, data
      ensures Valid() && Result(View(), used, status) == Begin(old(View()), frag, before)
    {
      var n := HDR - count;
      if n > |frag| { n := |frag|; }
      Copy(frag, n);
      used := before + n;
      if count != HDR { return used, Pending; }
      len := HDR + (data[1] as nat % 16) * 256 + data[2];
      assert data[..count][1] == data[1] && data[..count][2] == data[2];
      if len > max { return before + |frag|, TooBig; }
      header := true;
      used, status := FillUp(frag[n..], used);
    }

    /** The octets behind the header. */
    method FillUp(frag: seq<byte>, before: nat) returns (used: nat, status: Status)
      requires Valid() && header
      modifies this, data
      ensures Valid() && Result(View(), used, status) == Fill(old(View()), frag, before)
    {
      var n := len - count;
      if n > |frag| { n := |frag|; }
      ghost var held := data[..count];
      Copy(frag, n);
      assert SectionLen(held + frag[..n]) == SectionLen(held);
      used := before + n;
      status := if len == count then Complete else Pending;
    }

    /** `section_buf_add_transport_payload` */
    method AddTransportPayload(payload: seq<byte>, pduStart: bool) returns (used: nat, status: Status)
      requires Valid() && (pduStart ==> payload != [])
      modifies this, data
      ensures Valid() && Result(View(), used, status) == AddPayload(old(View()), payload, pduStart)
    {
      if header && len == count { return 0, Complete; }
      if waitPdu && !pduStart { return |payload|, Pending; }
      used := 0;
      if pduStart {
        waitPdu := false;
        var offset: nat := payload[0];
        if offset + 1 > |payload| {
          waitPdu := true;
          return |payload|, Invalid;
        }
        if count != 0 {
          used, status := FinishUnit(payload, offset);
          return;
        }
        used := 1 + offset;
      }
      used, status := AccumulateFrom(payload, used);
    }

    method FinishUnit(payload: seq<byte>, offset: nat) returns (used: nat, status: Status)
      requires Valid() && offset + 1 <= |payload|
      modifies this, data
      ensures Valid() && Result(View(), used, status) == Finish(old(View()), payload, offset)
    {
      used, status := Add(payload[1..1 + offset]);
      var left := Remaining();
      if used != offset || left != 0 || status != Complete {
        waitPdu := true;
        return 1 + used, TooBig;
      }
      used := 1 + used;
    }

    method AccumulateFrom(payload: seq<byte>, from: nat) returns (used: nat, status: Status)
      requires Valid() && from <= |payload|
      modifies this, data
      ensures Valid() && Result(View(), used, status) == Accumulate(old(View()), payload, from)
    {
      used, status := Add(payload[from..]);
      if status == TooBig { waitPdu := true; }
      used := from + used;
    }

    /** The loop around `section_buf_add`: every section found is put out and the buffer starts over. */
    method DrainFragment(fragment: seq<byte>) returns (sections: seq<seq<byte>>)
      requires Valid() && !Done(View())
      modifies this, data
      ensures Valid() && !Done(View()) && Out(View(), sections) == Drain(old(View()), fragment)
    {
      sections := [];
      var frag := fragment;
      assert [] + Drain(View(), frag).sections == Drain(View(), frag).sections;
      while frag != []
        invariant Valid() && !Done(View())
        invariant var rest := Drain(View(), frag); Out(rest.b, sections + rest.sections) == Drain(old(View()), fragment)
        decreases |frag|
      {
        if SectionBuf.Add(View(), frag).status == Complete { CompleteConsumes(View(), frag); }
        var used, status := Add(frag);
        if status != Complete {
          assert sections + [] == sections;
          return;
        }
        ghost var more := Drain(Reset(View()), frag[used..]).sections;
        Regroup(sections, [data[..count]], more);
        sections := sections + [data[..count]];
        ResetBuffer();
        frag := frag[used..];
      }
      assert sections + [] == sections;
    }

    /** The loop around `section_buf_add_transport_payload`: every section found is put out, and the buffer starts
     *  over after it and after every error. */
    method FeedPayload(payload: seq<byte>, pduStart: bool) returns (sections: seq<seq<byte>>)
      requires Valid() && !Done(View()) && (pduStart ==> payload != [])
      modifies this, data
      ensures Valid() && !Done(View())
      ensures Out(View(), sections) == SectionPayloads.Feed(old(View()), payload, pduStart)
    {
      sections := [];
      var p, start := payload, pduStart;
      assert [] + SectionPayloads.Feed(View(), p, start).sections == SectionPayloads.Feed(View(), p, start).sections;
      while p != []
        invariant Valid() && !Done(View()) && (start ==> p != [])
        invariant var rest := SectionPayloads.Feed(View(), p, start);
          Out(rest.b, sections + rest.sections) == SectionPayloads.Feed(old(View()), payload, pduStart)
        decreases |p|
      {
        SectionPayloads.Progress(View(), p, start);
        var used, status := AddTransportPayload(p, start);
        start := false;
        p := p[used..];
        if status == Complete {
          Regroup(sections, [data[..count]], SectionPayloads.Feed(Reset(View()), p, false).sections);
          sections := sections + [data[..count]];
          ResetBuffer();
        } else if status != Pending {
          ResetBuffer();
        }
      }
      assert sections + [] == sections;
    }
  }
}
