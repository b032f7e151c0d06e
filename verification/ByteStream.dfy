/** The byte stream between an entropy encoder and a decoder: after every 0xFF data byte
    comes a stuffed zero byte, and a 0xFF followed by anything else is a marker. */
module ByteStream {
  import opened Radix

  function Stuff(data: seq<byte>): seq<byte> {
    if data == [] then []
    else
      var last := data[|data| - 1];
      Stuff(data[..|data| - 1]) + StuffByte(last)
  }

  lemma {:induction false} StuffAppend(x: seq<byte>, y: seq<byte>)
    ensures Stuff(x + y) == Stuff(x) + Stuff(y)
    decreases y
  {
    hide StuffByte;
    if y == [] {
      assert x + y == x;
    } else {
      var z, n := x + y, |y| - 1;
      assert z[..|z| - 1] == x + y[..n];
      StuffAppend(x, y[..n]);
      assert Stuff(z) == Stuff(x) + Stuff(y[..n]) + StuffByte(y[n]);
    }
  }

  /** Every 0xFF in stuffed data is followed by a zero, so no marker can appear in it. */
  lemma {:induction false} StuffedFF(data: seq<byte>, i: nat)
    requires i < |Stuff(data)| && Stuff(data)[i] == 0xFF
    ensures i + 1 < |Stuff(data)| && Stuff(data)[i + 1] == 0
  {
    var n := |data| - 1;
    if i < |Stuff(data[..n])| { StuffedFF(data[..n], i); }
  }

  datatype Fetch = Data(b: byte, rest: seq<byte>) | Marker(m: byte, rest: seq<byte>) | Exhausted

  /** The bytes after a run of 0xFF bytes. */
  function SkipFF(s: seq<byte>): (r: seq<byte>)
    ensures |r| <= |s|
    ensures r != [] ==> r[0] != 0xFF
  {
    if s != [] && s[0] == 0xFF then SkipFF(s[1..]) else s
  }

  /** Reading one data byte from the front of a stream. */
  function FetchFrom(s: seq<byte>): (f: Fetch)
    ensures !f.Exhausted? ==> |f.rest| < |s|
  {
    if s == [] then Exhausted
    else if s[0] != 0xFF then Data(s[0], s[1..])
    else
      var r := SkipFF(s);
      if r == [] then Exhausted
      else if r[0] == 0 then Data(0xFF, r[1..])
      else Marker(r[0], r[1..])
  }

  /** The data bytes in front of the first marker. */
  function DataOf(s: seq<byte>): seq<byte>
    decreases |s|
  {
    match FetchFrom(s)
    case Data(b, rest) => [b] + DataOf(rest)
    case _ => []
  }

  /** The stream comes to a marker before it runs out. */
  predicate Terminated(s: seq<byte>)
    decreases |s|
  {
    match FetchFrom(s)
    case Data(_, rest) => Terminated(rest)
    case Marker(_, _) => true
    case Exhausted => false
  }

  /** A marker: at least one 0xFF, then a byte that is neither 0xFF nor 0. */
  predicate IsMarker(s: seq<byte>) {
    FetchFrom(s).Marker?
  }

  function StuffByte(b: byte): seq<byte> { if b == 0xFF then [0xFF, 0] else [b] }

  lemma FetchStuffed(b: byte, t: seq<byte>)
    ensures FetchFrom(StuffByte(b) + t) == Data(b, t)
  {
    var s := StuffByte(b) + t;
    if b == 0xFF {
      assert s[1..] == [0] + t;
      assert SkipFF(s) == SkipFF(s[1..]) == s[1..];
      assert s[1..][1..] == t;
    } else {
      assert s[1..] == t;
    }
  }

  /** Stuffed data followed by a marker is read back byte for byte. */
  lemma {:induction false} Unstuff(data: seq<byte>, tail: seq<byte>)
    requires IsMarker(tail)
    ensures DataOf(Stuff(data) + tail) == data
    ensures Terminated(Stuff(data) + tail)
  {
    if data == [] {
      assert Stuff(data) + tail == tail;
    } else {
      UnstuffFirst(data, tail);
      Unstuff(data[1..], tail);
    }
  }

  lemma UnstuffFirst(data: seq<byte>, tail: seq<byte>)
    requires data != []
    ensures var t := Stuff(data[1..]) + tail;
      DataOf(Stuff(data) + tail) == [data[0]] + DataOf(t) && Terminated(Stuff(data) + tail) == Terminated(t)
  {
    hide Stuff, StuffByte, FetchFrom;
    var t := Stuff(data[1..]) + tail;
    assert data == [data[0]] + data[1..];
    StuffAppend([data[0]], data[1..]);
    StuffOne(data[0]);
    assert Stuff(data) + tail == StuffByte(data[0]) + t;
    FetchStuffed(data[0], t);
  }

  lemma StuffOne(b: byte)
    ensures Stuff([b]) == StuffByte(b)
  {
    assert [b][..0] == [];
  }

  /** With more bytes behind it, a data byte or a marker reads the same. */
  lemma FetchLonger(s: seq<byte>, more: seq<byte>)
    requires !FetchFrom(s).Exhausted?
    ensures FetchFrom(s + more) == FetchFrom(s).(rest := FetchFrom(s).rest + more)
  {
    hide FetchFrom;
    if s != [] && s[0] == 0xFF {
      SkipLonger(s, more);
    }
    FetchCases(s);
    FetchCases(s + more);
    assert s != [] ==> (s + more)[1..] == s[1..] + more;
    assert SkipFF(s) != [] ==> (SkipFF(s) + more)[1..] == SkipFF(s)[1..] + more;
  }

  lemma FetchCases(s: seq<byte>)
    ensures FetchFrom(s) ==
      if s == [] then Exhausted
      else if s[0] != 0xFF then Data(s[0], s[1..])
      else if SkipFF(s) == [] then Exhausted
      else if SkipFF(s)[0] == 0 then Data(0xFF, SkipFF(s)[1..])
      else Marker(SkipFF(s)[0], SkipFF(s)[1..])
  {
  }

  lemma {:induction false} SkipLonger(s: seq<byte>, more: seq<byte>)
    ensures SkipFF(s) != [] ==> SkipFF(s + more) == SkipFF(s) + more
  {
    if s != [] && s[0] == 0xFF {
      SkipLonger(s[1..], more);
      assert (s + more)[1..] == s[1..] + more;
    }
  }

  /** Read one data byte, discarding the zero after 0xFF, or find a marker. */
  method ReadByte(s: seq<byte>) returns (f: Fetch)
    ensures f == FetchFrom(s)
  {
    if s == [] { return Exhausted; }
    var c, rest := s[0], s[1..];
    if c == 0xFF {
      while true
        invariant SkipFF(s) == SkipFF([0xFF] + rest)
        decreases |rest|
      {
        assert SkipFF([0xFF] + rest) == SkipFF(rest) by { assert ([0xFF] + rest)[1..] == rest; }
        if rest == [] { return Exhausted; }
        c := rest[0];
        assert rest == [c] + rest[1..];
        rest := rest[1..];
        if c != 0xFF { break; }
      }
      return if c == 0 then Data(0xFF, rest) else Marker(c, rest);
    }
    return Data(c, rest);
  }
}
