/** The parser only moves forward (src/nettrace/blocks.rs): what a call leaves is the end of what it was given. */
module Forward {
  import opened Wire
  import Framing
  import opened Blocks

  /** `k` is `s` with some of its front gone. */
  ghost predicate Behind(k: seq<byte>, s: seq<byte>) {
    |k| <= |s| && k == s[|s| - |k|..]
  }

  lemma BehindTwice(k: seq<byte>, m: seq<byte>, s: seq<byte>)
    requires Behind(k, m) && Behind(m, s)
    ensures Behind(k, s)
  {
  }

  ghost predicate Ahead<T>(p: Parsed<T>, s: seq<byte>) {
    p.Done? ==> Behind(p.rest, s)
  }

  lemma TakeIsAhead(s: seq<byte>, n: nat)
    ensures Ahead(Framing.Take(s, n), s)
  {
  }

  lemma U8IsAhead(s: seq<byte>)
    ensures Ahead(Framing.U8(s), s)
  {
    hide Framing.Take;
    TakeIsAhead(s, 1);
  }

  lemma I32IsAhead(s: seq<byte>)
    ensures Ahead(Framing.I32(s), s)
  {
    hide Framing.Take;
    TakeIsAhead(s, 4);
  }

  lemma ExpectTagIsAhead(s: seq<byte>, tag: byte, what: Structure)
    ensures Ahead(Framing.ExpectTag(s, tag, what), s)
  {
    hide Framing.U8;
    U8IsAhead(s);
  }

  lemma ReadTypeIsAhead(s: seq<byte>)
    ensures Ahead(Framing.ReadType(s), s)
  {
    hide Framing.Take, Framing.I32, Framing.ExpectTag, Behind;
    ExpectTagIsAhead(s, Framing.BEGIN_PRIVATE_OBJECT, SerializationTypeTag);
    var p1 := Framing.ExpectTag(s, Framing.BEGIN_PRIVATE_OBJECT, SerializationTypeTag);
    if p1.Done? {
      ExpectTagIsAhead(p1.rest, Framing.NULL_REFERENCE, SerializationTypesTypeTag);
      var p2 := Framing.ExpectTag(p1.rest, Framing.NULL_REFERENCE, SerializationTypesTypeTag);
      if p2.Done? {
        BehindTwice(p2.rest, p1.rest, s);
        NumbersAndNameAreAhead(p2.rest, s);
      }
    }
  }

  lemma NumbersAndNameAreAhead(m: seq<byte>, s: seq<byte>)
    requires Behind(m, s)
    ensures var p3 := Framing.I32(m);
            p3.Done? ==>
            var p4 := Framing.I32(p3.rest);
            p4.Done? ==>
            var p5 := Framing.I32(p4.rest);
            p5.Done? && 0 <= p5.value <= Framing.MAX_TYPE_NAME ==>
            var p6 := Framing.Take(p5.rest, p5.value);
            p6.Done? ==> Ahead(Framing.ExpectTag(p6.rest, Framing.END_OBJECT, EndOfSerializationType), s)
  {
    hide Framing.Take, Framing.I32, Framing.ExpectTag, Behind;
    var p3 := Framing.I32(m);
    I32IsAhead(m);
    if p3.Done? {
      BehindTwice(p3.rest, m, s);
      var p4 := Framing.I32(p3.rest);
      I32IsAhead(p3.rest);
      if p4.Done? {
        BehindTwice(p4.rest, p3.rest, s);
        var p5 := Framing.I32(p4.rest);
        I32IsAhead(p4.rest);
        if p5.Done? && 0 <= p5.value <= Framing.MAX_TYPE_NAME {
          BehindTwice(p5.rest, p4.rest, s);
          var p6 := Framing.Take(p5.rest, p5.value);
          TakeIsAhead(p5.rest, p5.value);
          if p6.Done? {
            BehindTwice(p6.rest, p5.rest, s);
            var p7 := Framing.ExpectTag(p6.rest, Framing.END_OBJECT, EndOfSerializationType);
            ExpectTagIsAhead(p6.rest, Framing.END_OBJECT, EndOfSerializationType);
            if p7.Done? {
              BehindTwice(p7.rest, p6.rest, s);
            }
          }
        }
      }
    }
  }

  lemma ReadObjectHeaderIsAhead(s: seq<byte>)
    ensures Ahead(Framing.ReadObjectHeader(s), s)
  {
    hide Framing.U8, Framing.ReadType, Behind;
    U8IsAhead(s);
    var tag := Framing.U8(s);
    if tag.Done? {
      ReadTypeIsAhead(tag.rest);
      var header := Framing.ReadType(tag.rest);
      if header.Done? {
        BehindTwice(header.rest, tag.rest, s);
      }
    }
  }

  lemma ReadSizedIsAhead(s: seq<byte>, pos: nat)
    ensures Ahead(Framing.ReadSized(s, pos), s)
  {
    hide Framing.Take, Framing.I32, Framing.Padding, Behind;
    I32IsAhead(s);
    var size := Framing.I32(s);
    if size.Done? && 0 <= size.value <= Framing.MAX_BLOCK_SIZE {
      var padding := Framing.Take(size.rest, Framing.Padding(pos + 4));
      TakeIsAhead(size.rest, Framing.Padding(pos + 4));
      if padding.Done? {
        BehindTwice(padding.rest, size.rest, s);
        var content := Framing.Take(padding.rest, size.value);
        TakeIsAhead(padding.rest, size.value);
        if content.Done? {
          BehindTwice(content.rest, padding.rest, s);
        }
      }
    }
  }

  lemma ReadBodyIsAhead(kind: Kind, s: seq<byte>, pos: nat)
    ensures Ahead(ReadBody(kind, s, pos), s)
  {
    hide Framing.Take, Framing.ReadSized, Framing.ExpectTag, Behind;
    TakeIsAhead(s, TRACE_BODY_SIZE);
    ReadSizedIsAhead(s, pos);
    var body := if kind.TraceObject? then Framing.Take(s, TRACE_BODY_SIZE) else Framing.ReadSized(s, pos);
    if body.Done? {
      ExpectTagIsAhead(body.rest, Framing.END_OBJECT, EndOfBlock);
      var tag := Framing.ExpectTag(body.rest, Framing.END_OBJECT, EndOfBlock);
      if tag.Done? {
        BehindTwice(tag.rest, body.rest, s);
      }
    }
  }

  ghost predicate Leaves(p: Progress, s: seq<byte>) {
    !p.Failure? ==> Behind(p.rest, s)
  }

  lemma ReadObjectIsAhead(kind: Kind, s: seq<byte>, pos: nat, k: Knowledge)
    ensures Leaves(ReadObject(kind, s, pos, k), s)
  {
    hide ReadBody, Absorb, Behind;
    ReadBodyIsAhead(kind, s, pos);
  }

  /** Whatever the bytes, a call takes some off the front and touches nothing behind them. */
  lemma {:induction false} NextOnlyMovesForward(s: seq<byte>, pos: nat, k: Knowledge)
    ensures Leaves(NextEvents(s, pos, k), s)
    decreases |s|
  {
    hide Framing.ReadObjectHeader, ReadObject, KindOf, Behind;
    if k.finished {
      NothingTaken(s);
    } else {
      ReadObjectHeaderIsAhead(s);
      var header := Framing.ReadObjectHeader(s);
      if header.Done? && header.value.Some? {
        var p := ReadObject(KindOf(header.value.value.typeName), header.rest, pos + |s| - |header.rest|, k);
        ReadObjectIsAhead(KindOf(header.value.value.typeName), header.rest, pos + |s| - |header.rest|, k);
        if !p.Failure? {
          BehindTwice(p.rest, header.rest, s);
          if p.Quiet? {
            NextOnlyMovesForward(p.rest, pos + |s| - |p.rest|, p.knowledge);
            var q := NextEvents(p.rest, pos + |s| - |p.rest|, p.knowledge);
            if !q.Failure? {
              BehindTwice(q.rest, p.rest, s);
            }
          }
        }
      }
    }
  }

  lemma NothingTaken(s: seq<byte>)
    ensures Behind(s, s)
  {
  }
}
