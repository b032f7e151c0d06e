/** Sending what a block turns into, behind a pending end-of-band run: common to the first AC
    scans and the refinement scans of jchuff.c. */
module RunSender {
  import opened Radix
  import opened HuffTokens
  import opened EobRuns

  /** Nothing but the tokens of the head has been sent for this MCU, after the pending run. */
  ghost predicate Sending(e: RunEncoder, h: Held, sent: seq<Token>, x: seq<Token>)
    reads e, e.sink, e.sink.w, e.bitBuffer
  {
    && e.Loose() && Small(h)
    && e.Pending() == (if x == [] then h else NONE)
    && e.sink.sent == (if x == [] then sent else sent + Flush(e.acTblNo, h) + x)
  }

  lemma NothingPending(tab: nat)
    ensures Flush(tab, NONE) == []
  {
  }

  /** A block with a head cannot be sent unless the pending run and the head can. */
  lemma OutParts(sink: Sink, tab: nat, h: Held, item: Item)
    requires Small(h) && item.head != []
    ensures sink.Can(Out(tab, h, item)) ==> sink.Can(Flush(tab, h) + item.head)
  {
    hide Flush, Sink.Can;
    var early := Flush(tab, h) + item.head;
    CanSplit(sink, early, Out(tab, h, item)[|early|..]);
    assert Out(tab, h, item) == early + Out(tab, h, item)[|early|..];
  }

  /** What is sent before the end of the block is known. */
  function Early(tab: nat, h: Held, x: Item): seq<Token>
    requires Small(h)
  {
    if x.head == [] then [] else Flush(tab, h) + x.head
  }

  lemma OutIs(tab: nat, h: Held, x: Item)
    requires Small(h)
    ensures Out(tab, h, x) == if x.eob && Full(Add(Begin(h, x), x)) then Early(tab, h, x) + Flush(tab, Add(Begin(h, x), x)) else Early(tab, h, x)
  {
    hide Flush;
  }

  lemma LateBlocked(e: RunEncoder, h: Held, item: Item)
    requires Small(h) && ItemOk(item) && item.eob && Full(Add(Begin(h, item), item)) && !e.sink.Can(Flush(e.acTblNo, Add(Begin(h, item), item)))
    ensures !e.sink.Can(Out(e.acTblNo, h, item))
  {
    hide Flush, Sink.Can;
    var early := if item.head == [] then [] else Flush(e.acTblNo, h) + item.head;
    CanSplit(e.sink, early, Flush(e.acTblNo, Add(Begin(h, item), item)));
  }

  /** Count an EOB if the item ends with one, with its br correction bits, and force it out if the
      counter or the bit buffer could overflow on the next MCU. */
  method CountEob(e: RunEncoder, pending: bool, br: nat, ghost item: Item, ghost h: Held, ghost sent: seq<Token>)
      returns (ok: bool)
    requires Sending(e, h, sent, item.head) && ItemOk(item) && item.eob == pending && e.be + br <= MAX_CORR_BITS
    requires item.tail == e.bitBuffer[e.be..e.be + br]
    modifies e, e.sink, e.sink.w
    ensures ok == e.sink.Can(Out(e.acTblNo, h, item))
    ensures ok ==> e.Valid() && e.Pending() == Next(h, item) && e.sink.sent == sent + Out(e.acTblNo, h, item)
  {
    hide Sink.Valid, Sink.Can, Flush, Raws, Out;
    ghost var p := e.Pending();
    assert p == Begin(h, item) && e.sink.sent == sent + Early(e.acTblNo, h, item);
    ok := true;
    if pending {
      assert e.bitBuffer[..e.be + br] == p.bits + item.tail;
      e.eobrun := e.eobrun + 1;
      e.be := e.be + br;
      assert e.Pending() == Add(p, item);
      if e.eobrun == 0x7FFF || e.be > MAX_CORR_BITS - DCTSIZE2 + 1 {
        ok := e.EmitEobrun();
        if !ok { LateBlocked(e, h, item); }
      }
    }
    OutIs(e.acTblNo, h, item);
    Concat(sent, Early(e.acTblNo, h, item), Flush(e.acTblNo, Add(p, item)));
    if ok { SentCan(e.sink, sent, Out(e.acTblNo, h, item)); }
  }
}
