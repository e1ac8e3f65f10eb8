/** Texts in pieces inside a menu, list or enquiry object (`en50221_app_mmi_defragment_text` of en50221_app_mmi.c). */
module MmiText {
  import opened Common
  import Asn1

  const TAG_TEXT_LAST := 0x9f8803
  const TAG_TEXT_MORE := 0x9f8804

  function TagOf(data: seq<byte>): nat
    requires |data| >= 3
  {
    data[0] as int * 0x10000 + data[1] as int * 0x100 + data[2] as int
  }

  /** The result code, the text and the octets consumed; or a failure. `Overrun` is a piece that announces more
      octets than are there, which the code copies from behind the data. */
  datatype Result = Failed | Overrun | Text(code: int, text: seq<byte>, consumed: nat)

  /** With `text` put together before, if there was a piece before. */
  function Defragment(data: seq<byte>, text: Option<seq<byte>>, consumed: nat): Result
    decreases |data|
  {
    if |data| < 3 then Failed
    else
      var field := Asn1.Decode(data[3..]);
      if field == Asn1.Bad then Failed
      else if TagOf(data) != TAG_TEXT_LAST && TagOf(data) != TAG_TEXT_MORE then Failed
      else
        var start, size := 3 + field.size, field.value;
        if start + size > |data| then Overrun
        else
          var piece, eaten := data[start..start + size], consumed + start + size;
          if TagOf(data) == TAG_TEXT_LAST then
            if text == None then Text(1, piece, eaten) else Text(2, text.value + piece, eaten)
          else
            Defragment(data[start + size..], Some(if text == None then piece else text.value + piece), eaten)
  }

  /** The loop of the code, with a position instead of the moving pointer. */
  method DefragmentText(data: seq<byte>) returns (r: Result)
    ensures r == Defragment(data, None, 0)
  {
    hide TagOf, Asn1.Decode;
    var text: Option<seq<byte>> := None;
    var pos := 0;
    while true
      invariant pos <= |data|
      invariant Defragment(data, None, 0) == Defragment(data[pos..], text, pos)
      decreases |data| - pos
    {
      var rest := data[pos..];
      if |rest| < 3 {
        return Failed;
      }
      var tag := TagOf(rest);
      var field := Asn1.Decode(rest[3..]);
      if field == Asn1.Bad {
        return Failed;
      }
      var start, size := 3 + field.size, field.value;
      if tag == TAG_TEXT_LAST {
        if start + size > |rest| {
          return Overrun;
        }
        var piece := rest[start..start + size];
        if text == None {
          return Text(1, piece, pos + start + size);
        }
        return Text(2, text.value + piece, pos + start + size);
      } else if tag == TAG_TEXT_MORE {
        if start + size > |rest| {
          return Overrun;
        }
        var piece := rest[start..start + size];
        text := Some(if text == None then piece else text.value + piece);
        assert data[pos + start + size..] == rest[start + size..];
        pos := pos + start + size;
      } else {
        return Failed;
      }
    }
  }

  /* ---- Round trip ---- */

  function TagOctets(last: bool): (r: seq<byte>)
    ensures |r| == 3 && TagOf(r) == if last then TAG_TEXT_LAST else TAG_TEXT_MORE
  {
    [0x9f, 0x88, if last then 0x03 else 0x04]
  }

  function Piece(last: bool, p: seq<byte>): seq<byte>
    requires |p| < 0x10000
  {
    TagOctets(last) + Asn1.Encode(|p|) + p
  }

  predicate Short(pieces: seq<seq<byte>>) {
    forall p <- pieces :: |p| < 0x10000
  }

  /** A text sent in pieces, the last one marked. */
  function InPieces(pieces: seq<seq<byte>>): seq<byte>
    requires pieces != [] && Short(pieces)
  {
    if |pieces| == 1 then Piece(true, pieces[0])
    else
      assert pieces[0] in pieces && forall p <- pieces[1..] :: p in pieces;
      Piece(false, pieces[0]) + InPieces(pieces[1..])
  }

  /** One piece is taken off the front of the data. */
  lemma PieceTaken(last: bool, p: seq<byte>, rest: seq<byte>, text: Option<seq<byte>>, consumed: nat)
    requires |p| < 0x10000
    ensures var all := if text == None then p else text.value + p;
            var eaten := consumed + |Piece(last, p)|;
            Defragment(Piece(last, p) + rest, text, consumed) ==
            if last then Text(if text == None then 1 else 2, all, eaten) else Defragment(rest, Some(all), eaten)
  {
    hide Asn1.Decode, Asn1.Encode, TagOctets;
    var t, l := TagOctets(last), Asn1.Encode(|p|);
    var data := Piece(last, p) + rest;
    assert data[0] == t[0] && data[1] == t[1] && data[2] == t[2];
    assert data[3..] == l + (p + rest);
    Asn1.RoundTrip(|p|, p + rest);
    var start := 3 + |l|;
    assert data[start..start + |p|] == p && data[start + |p|..] == rest;
  }

  /** Whatever pieces a text is cut into, it is put together again, and exactly its octets are consumed. */
  lemma {:induction false} PiecesJoined(pieces: seq<seq<byte>>, rest: seq<byte>, text: Option<seq<byte>>, consumed: nat)
    requires pieces != [] && Short(pieces)
    ensures Defragment(InPieces(pieces) + rest, text, consumed) ==
            Text(if text == None && |pieces| == 1 then 1 else 2,
                 (if text == None then [] else text.value) + Flatten(pieces),
                 consumed + |InPieces(pieces)|)
    decreases |pieces|
  {
    hide Defragment, Piece;
    var p, more := pieces[0], pieces[1..];
    assert pieces == [p] + more;
    assert p in pieces;
    if more == [] {
      assert Flatten(pieces) == p;
      PieceTaken(true, p, rest, text, consumed);
    } else {
      var head := Piece(false, p);
      assert forall q <- more :: q in pieces;
      Regroup(head, InPieces(more), rest);
      PieceTaken(false, p, InPieces(more) + rest, text, consumed);
      var all := if text == None then p else text.value + p;
      PiecesJoined(more, rest, Some(all), consumed + |head|);
      assert all + Flatten(more) == (if text == None then [] else text.value) + Flatten(pieces);
    }
  }

  /* ---- Failures ---- */

  /** Whatever pieces have come before, it fails where less than a tag is left, or a length field that is none, or a tag
      that is neither the one of a last piece nor the one of a piece with more to come; it runs over where a piece
      announces more than is there, and otherwise ends with a last piece. */
  lemma {:induction false} FailsExactly(pieces: seq<seq<byte>>, rest: seq<byte>, text: Option<seq<byte>>, consumed: nat)
    requires Short(pieces)
    ensures var r := Defragment(Started(pieces) + rest, text, consumed);
      && (NoPiece(rest) ==> r == Failed)
      && (Announces(rest) ==> r == Overrun)
      && (!NoPiece(rest) && !Announces(rest) && rest[2] == 0x03 ==> r.Text?)
    decreases |pieces|
  {
    hide Defragment, Piece, NoPiece, Announces;
    if pieces == [] {
      assert Started(pieces) + rest == rest;
      FrontFails(rest, text, consumed);
    } else {
      var p, more := pieces[0], pieces[1..];
      assert p in pieces && forall q <- more :: q in pieces;
      Regroup(Piece(false, p), Started(more), rest);
      PieceTaken(false, p, Started(more) + rest, text, consumed);
      FailsExactly(more, rest, Some(if text == None then p else text.value + p), consumed + |Piece(false, p)|);
    }
  }

  /** Pieces with more to come. */
  function Started(pieces: seq<seq<byte>>): seq<byte>
    requires Short(pieces)
  {
    if pieces == [] then []
    else
      assert pieces[0] in pieces && forall p <- pieces[1..] :: p in pieces;
      Piece(false, pieces[0]) + Started(pieces[1..])
  }

  predicate NoPiece(b: seq<byte>) {
    || |b| < 3
    || Asn1.Decode(b[3..]) == Asn1.Bad
    || !(b[0] == 0x9f && b[1] == 0x88 && (b[2] == 0x03 || b[2] == 0x04))
  }

  predicate Announces(b: seq<byte>) {
    && |b| >= 3 && Asn1.Decode(b[3..]) != Asn1.Bad
    && b[0] == 0x9f && b[1] == 0x88 && (b[2] == 0x03 || b[2] == 0x04)
    && 3 + Asn1.Decode(b[3..]).size + Asn1.Decode(b[3..]).value > |b|
  }

  lemma FrontFails(b: seq<byte>, text: Option<seq<byte>>, consumed: nat)
    ensures NoPiece(b) ==> Defragment(b, text, consumed) == Failed
    ensures Announces(b) ==> Defragment(b, text, consumed) == Overrun
    ensures !NoPiece(b) && !Announces(b) && b[2] == 0x03 ==> Defragment(b, text, consumed).Text?
  {
    hide Asn1.Decode;
  }
}
