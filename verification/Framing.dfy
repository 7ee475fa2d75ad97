/** Length-prefixed frames on a byte stream (network/tcp_msg.go). */
module Framing {
  import opened Words
  import opened Modulus

  type byte = x: int | 0 <= x < 256

  datatype Parser = Parser(width: int, min: int, maxRead: int, maxWrite: int, little: bool)

  /** The widths that getMaxMsgLen accepts, and 32-bit limits. */
  predicate Sane(p: Parser) {
    p.width in {1, 2, 4} && 0 <= p.min < TWO32 && 0 <= p.maxRead < TWO32 && 0 <= p.maxWrite < TWO32
  }

  function Base(w: nat): (b: int)
    ensures b >= 1
  {
    if w == 0 then 1 else 256 * Base(w - 1)
  }

  function MaxMsgLen(p: Parser): int
    requires Sane(p)
  {
    match p.width
    case 1 => 0xFF
    case 2 => 0xFFFF
    case _ => 0xFFFF_FFFF
  }

  lemma HeaderRange(p: Parser)
    requires Sane(p)
    ensures Base(p.width) == MaxMsgLen(p) + 1
  {
    assert Base(1) == 256 && Base(2) == 0x1_0000;
    assert Base(3) == 0x100_0000;
    assert Base(4) == TWO32;
  }

  // ---- headers ----

  /** The low w bytes of n, the least significant first. */
  function LittleBytes(n: nat, w: nat): (s: seq<byte>)
    ensures |s| == w
  {
    if w == 0 then [] else [n % 256] + LittleBytes(n / 256, w - 1)
  }

  /** The low w bytes of n, the most significant first. */
  function BigBytes(n: nat, w: nat): (s: seq<byte>)
    ensures |s| == w
  {
    if w == 0 then [] else BigBytes(n / 256, w - 1) + [n % 256]
  }

  function LittleValue(s: seq<byte>): nat {
    if s == [] then 0 else s[0] + 256 * LittleValue(s[1..])
  }

  function BigValue(s: seq<byte>): nat {
    if s == [] then 0 else 256 * BigValue(s[..|s| - 1]) + s[|s| - 1]
  }

  function Header(p: Parser, n: nat): (s: seq<byte>)
    requires p.width >= 0
    ensures |s| == p.width
  {
    if p.little then LittleBytes(n, p.width) else BigBytes(n, p.width)
  }

  function HeaderValue(p: Parser, s: seq<byte>): nat {
    if p.little then LittleValue(s) else BigValue(s)
  }

  lemma {:induction false} LittleRoundTrip(n: nat, w: nat)
    requires n < Base(w)
    ensures LittleValue(LittleBytes(n, w)) == n
  {
    if w > 0 {
      LittleRoundTrip(n / 256, w - 1);
      assert LittleBytes(n, w)[1..] == LittleBytes(n / 256, w - 1);
    }
  }

  lemma {:induction false} BigRoundTrip(n: nat, w: nat)
    requires n < Base(w)
    ensures BigValue(BigBytes(n, w)) == n
  {
    if w > 0 {
      BigRoundTrip(n / 256, w - 1);
      assert BigBytes(n, w)[..w - 1] == BigBytes(n / 256, w - 1);
    }
  }

  lemma {:induction false} ValueBelow(s: seq<byte>)
    ensures LittleValue(s) < Base(|s|) && BigValue(s) < Base(|s|)
  {
    if s != [] {
      ValueBelow(s[1..]);
      ValueBelow(s[..|s| - 1]);
    }
  }

  function At(s: seq<byte>, i: int): int
    requires 0 <= i < |s|
  {
    s[i]
  }

  /** What the bytes of a header stand for: the first byte of a big-endian one counts most, and that
      of a little-endian one counts least. */
  lemma HeaderBytes(p: Parser, s: seq<byte>)
    requires Sane(p) && |s| == p.width
    ensures p.width == 1 ==> HeaderValue(p, s) == At(s, 0)
    ensures p.width == 2 ==>
              HeaderValue(p, s) == if p.little then At(s, 0) + 0x100 * At(s, 1) else 0x100 * At(s, 0) + At(s, 1)
    ensures p.width == 4 ==>
              HeaderValue(p, s) ==
              if p.little then At(s, 0) + 0x100 * At(s, 1) + 0x1_0000 * At(s, 2) + 0x100_0000 * At(s, 3)
              else 0x100_0000 * At(s, 0) + 0x1_0000 * At(s, 1) + 0x100 * At(s, 2) + At(s, 3)
  {
    if p.width == 4 {
      assert LittleValue(s[3..]) == s[3] && BigValue(s[..1]) == s[0];
      assert s[2..][1..] == s[3..] && s[1..][1..] == s[2..];
      assert LittleValue(s[2..]) == s[2] + 256 * LittleValue(s[3..]);
      assert LittleValue(s[1..]) == s[1] + 256 * LittleValue(s[2..]);
      assert s[..2][..1] == s[..1] && s[..3][..2] == s[..2];
      assert BigValue(s[..2]) == 256 * BigValue(s[..1]) + s[1];
      assert BigValue(s[..3]) == 256 * BigValue(s[..2]) + s[2];
    } else if p.width == 2 {
      assert LittleValue(s[1..]) == s[1] && BigValue(s[..1]) == s[0];
    } else {
      assert LittleValue(s[1..]) == 0 && BigValue(s[..0]) == 0;
    }
  }

  lemma LowScale(b: int, q: int, r: int, low: int)
    requires b > 0 && 0 <= r < b && 0 <= low < 256
    ensures 256 * (b * q + r) + low == (256 * b) * q + (256 * r + low) && 0 <= 256 * r + low < 256 * b
  {
  }

  lemma LowMod(n: nat, b: nat)
    requires b > 0
    ensures n % (256 * b) == 256 * (n / 256 % b) + n % 256
  {
    var q, r := n / 256 / b, n / 256 % b;
    assert n / 256 == b * q + r;
    LowScale(b, q, r, n % 256);
    ModUnique(n, 256 * b, q, 256 * r + n % 256);
  }

  lemma {:induction false} LowBytes(n: nat, w: nat)
    ensures LittleValue(LittleBytes(n, w)) == n % Base(w) && BigValue(BigBytes(n, w)) == n % Base(w)
  {
    if w > 0 {
      LowBytes(n / 256, w - 1);
      LowMod(n, Base(w - 1));
      assert LittleBytes(n, w)[1..] == LittleBytes(n / 256, w - 1);
      assert BigBytes(n, w)[..w - 1] == BigBytes(n / 256, w - 1);
    }
  }

  /** The header of a length stands for the length, less what does not fit. */
  lemma HeaderLow(p: Parser, n: nat)
    requires Sane(p)
    ensures HeaderValue(p, Header(p, n)) == n % (MaxMsgLen(p) + 1)
  {
    HeaderRange(p);
    LowBytes(n, p.width);
  }

  /** A length survives the header if and only if it fits. */
  lemma HeaderRoundTrip(p: Parser, n: nat)
    requires Sane(p)
    ensures HeaderValue(p, Header(p, n)) == n <==> n <= MaxMsgLen(p)
  {
    HeaderRange(p);
    ValueBelow(Header(p, n));
    if n <= MaxMsgLen(p) {
      LittleRoundTrip(n, p.width);
      BigRoundTrip(n, p.width);
    }
  }

  // ---- writing ----

  function Concat(args: seq<seq<byte>>): seq<byte> {
    if args == [] then [] else Concat(args[..|args| - 1]) + args[|args| - 1]
  }

  datatype Written = Sent(frame: seq<byte>) | TooLong | TooShort | Panics

  /** Go's copy: as much of src as fits from position at on. */
  method CopyInto(msg: array<byte>, at: nat, src: seq<byte>)
    requires at <= msg.Length
    modifies msg
    ensures msg[..at] == old(msg[..at])
    ensures var k := Min(|src|, msg.Length - at); msg[at..at + k] == src[..k]
  {
    var k := Min(|src|, msg.Length - at);
    for i := 0 to k
      invariant msg[..at] == old(msg[..at]) && msg[at..at + i] == src[..i]
    {
      msg[at + i] := src[i];
      assert msg[at..at + i + 1] == msg[at..at + i] + [src[i]];
    }
  }

  lemma ConcatSnoc(args: seq<seq<byte>>, i: int)
    requires 0 <= i < |args|
    ensures Concat(args[..i + 1]) == Concat(args[..i]) + args[i]
  {
    assert args[..i + 1][..i] == args[..i];
  }

  lemma {:induction false} ConcatPrefix(args: seq<seq<byte>>, i: int)
    requires 0 <= i <= |args|
    ensures Concat(args[..i]) <= Concat(args)
    decreases |args| - i
  {
    if i == |args| {
      assert args[..i] == args;
    } else {
      ConcatSnoc(args, i);
      ConcatPrefix(args, i + 1);
    }
  }

  lemma CopyGrows(c: seq<byte>, l: int, src: seq<byte>, msg: seq<byte>)
    requires 0 <= l <= |msg| && |c| == l + |src| && c[l..] == src
    requires msg[..l] == c[..l] && var k := Min(|src|, |msg| - l); msg[l..l + k] == src[..k]
    ensures var k := Min(|c|, |msg|); msg[..k] == c[..k]
  {
    var k := Min(|c|, |msg|);
    forall i | 0 <= i < k
      ensures msg[i] == c[i]
    {
      if i < l {
        assert msg[i] == msg[..l][i] == c[..l][i];
      } else {
        var m := Min(|src|, |msg| - l);
        assert msg[i] == msg[l..l + m][i - l] == src[..m][i - l] == c[l..][i - l];
      }
    }
  }

  /** The buffer has the header and the first i arguments, as far as they fit. */
  ghost predicate Filled(msg: seq<byte>, header: seq<byte>, args: seq<seq<byte>>, i: int)
    requires 0 <= i <= |args|
  {
    var c := header + Concat(args[..i]);
    var k := Min(|c|, |msg|);
    msg[..k] == c[..k]
  }

  method CopyArg(msg: array<byte>, l: nat, ghost header: seq<byte>, args: seq<seq<byte>>, i: nat)
    requires i < |args| && l == |header| + |Concat(args[..i])| <= msg.Length && Filled(msg[..], header, args, i)
    modifies msg
    ensures Filled(msg[..], header, args, i + 1)
  {
    ghost var b, c := header + Concat(args[..i]), header + Concat(args[..i + 1]);
    ConcatSnoc(args, i);
    assert c == b + args[i];
    assert msg[..l] == b == c[..l];
    CopyInto(msg, l, args[i]);
    assert msg[..][..l] == msg[..l];
    CopyGrows(c, l, args[i], msg[..]);
  }

  method FillMessage(header: seq<byte>, args: seq<seq<byte>>, n: nat) returns (panicked: bool, frame: seq<byte>)
    requires n <= |Concat(args)|
    ensures panicked <==> exists i :: 0 <= i < |args| && |Concat(args[..i])| > n
    ensures !panicked ==> frame == header + Concat(args)[..n]
  {
    var msg := new byte[|header| + n](_ => 0);
    CopyInto(msg, 0, header);
    var l := |header|;
    assert args[..0] == [] && msg[..][..l] == msg[0..l] == header;
    for i := 0 to |args|
      invariant l == |header| + |Concat(args[..i])| && Filled(msg[..], header, args, i)
      invariant forall j :: 0 <= j < i ==> |Concat(args[..j])| <= n
    {
      if l > msg.Length {
        return true, [];
      }
      CopyArg(msg, l, header, args, i);
      ConcatSnoc(args, i);
      l := l + |args[i]|;
    }
    assert args[..|args|] == args;
    frame := msg[..];
    assert frame == (header + Concat(args))[..|header| + n];
    panicked := false;
  }

  method Write(p: Parser, args: seq<seq<byte>>) returns (r: Written)
    requires Sane(p)
    ensures var n := |Concat(args)| % TWO32;
            if p.maxWrite > 0 && n > p.maxWrite then r == TooLong
            else if n < p.min then r == TooShort
            else if exists i :: 0 <= i < |args| && |Concat(args[..i])| > n then r == Panics
            else r == Sent(Header(p, n) + Concat(args)[..n])
  {
    var msgLen := TotalLength(args);
    if p.maxWrite > 0 && msgLen > p.maxWrite {
      return TooLong;
    } else if msgLen < p.min {
      return TooShort;
    }
    var panicked, frame := FillMessage(Header(p, msgLen), args, msgLen);
    r := if panicked then Panics else Sent(frame);
  }

  method TotalLength(args: seq<seq<byte>>) returns (n: int)
    ensures n == |Concat(args)| % TWO32
  {
    n := 0;
    assert args[..0] == [];
    for i := 0 to |args|
      invariant n == |Concat(args[..i])| % TWO32
    {
      ConcatSnoc(args, i);
      n := (n + |args[i]| % TWO32) % TWO32;
    }
    assert args[..|args|] == args;
  }

  /** A message of less than 2^32 bytes never makes Write panic. */
  lemma NoPanic(args: seq<seq<byte>>)
    requires |Concat(args)| < TWO32
    ensures !exists i :: 0 <= i < |args| && |Concat(args[..i])| > |Concat(args)| % TWO32
  {
    forall i | 0 <= i < |args|
      ensures |Concat(args[..i])| <= |Concat(args)|
    {
      ConcatPrefix(args, i);
    }
  }

  // ---- reading ----

  datatype Error = EndOfStream | MessageTooLong | MessageTooShort

  datatype Result = Ok(data: seq<byte>) | Err(error: Error)

  /** The result of reading one frame and what is then left of the stream. */
  function ReadFrame(p: Parser, s: seq<byte>): (Result, seq<byte>)
    requires p.width >= 0
  {
    if |s| < p.width then (Err(EndOfStream), [])
    else
      var n, rest := HeaderValue(p, s[..p.width]), s[p.width..];
      if n > p.maxRead then (Err(MessageTooLong), rest)
      else if n < p.min then (Err(MessageTooShort), rest)
      else if |rest| < n then (Err(EndOfStream), [])
      else (Ok(rest[..n]), rest[n..])
  }

  class Reader {
    var rest: seq<byte>

    /** io.ReadFull. */
    method ReadFull(n: nat) returns (ok: bool, data: seq<byte>)
      modifies this
      ensures ok == (n <= |old(rest)|)
      ensures if ok then data == old(rest)[..n] && rest == old(rest)[n..] else rest == []
    {
      if |rest| < n {
        ok, data, rest := false, rest, [];
      } else {
        ok, data, rest := true, rest[..n], rest[n..];
      }
    }

    method Read(p: Parser) returns (r: Result)
      requires Sane(p)
      modifies this
      ensures (r, rest) == ReadFrame(p, old(rest))
      ensures |old(rest)| < p.width ==> r == Err(EndOfStream) && rest == []
      ensures |old(rest)| >= p.width ==>
                var n, body := HeaderValue(p, old(rest)[..p.width]), old(rest)[p.width..];
                && (n > p.maxRead ==> r == Err(MessageTooLong) && rest == body)
                && (n <= p.maxRead && n < p.min ==> r == Err(MessageTooShort) && rest == body)
                && (p.min <= n <= p.maxRead && n > |body| ==> r == Err(EndOfStream) && rest == [])
                && (p.min <= n <= p.maxRead && n <= |body| ==> r == Ok(body[..n]) && rest == body[n..])
    {
      var ok, bufMsgLen := ReadFull(p.width);
      if !ok {
        return Err(EndOfStream);
      }
      var msgLen := HeaderValue(p, bufMsgLen);
      if msgLen > p.maxRead {
        return Err(MessageTooLong);
      } else if msgLen < p.min {
        return Err(MessageTooShort);
      }
      var full, data := ReadFull(msgLen);
      r := if full then Ok(data) else Err(EndOfStream);
    }
  }

  // ---- round trips ----

  function Frame(p: Parser, m: seq<byte>): seq<byte>
    requires p.width >= 0
  {
    Header(p, |m|) + m
  }

  predicate Fits(p: Parser, m: seq<byte>)
    requires Sane(p)
  {
    |m| <= MaxMsgLen(p) && p.min <= |m| <= p.maxRead
  }

  /** A frame followed by anything is read back as its message if and only if the length fits
      the header and the reader's limits. */
  lemma FrameRoundTrip(p: Parser, m: seq<byte>, more: seq<byte>)
    requires Sane(p)
    ensures ReadFrame(p, Frame(p, m) + more) == (Ok(m), more) <==> Fits(p, m)
  {
    var s := Frame(p, m) + more;
    HeaderRoundTrip(p, |m|);
    assert s[..p.width] == Header(p, |m|);
    assert s[p.width..] == m + more;
    if Fits(p, m) {
      assert (m + more)[..|m|] == m && (m + more)[|m|..] == more;
    }
  }

  function Stream(p: Parser, msgs: seq<seq<byte>>): seq<byte>
    requires p.width >= 0
  {
    if msgs == [] then [] else Frame(p, msgs[0]) + Stream(p, msgs[1..])
  }

  /** The results of reading n frames in a row. */
  function ReadMany(p: Parser, s: seq<byte>, n: nat): seq<Result>
    requires p.width >= 0
    decreases n
  {
    if n == 0 then [] else [ReadFrame(p, s).0] + ReadMany(p, ReadFrame(p, s).1, n - 1)
  }

  lemma ReadNext(p: Parser, m: seq<byte>, more: seq<byte>, n: nat)
    requires Sane(p) && Fits(p, m)
    ensures ReadMany(p, Frame(p, m) + more, n + 1) == [Ok(m)] + ReadMany(p, more, n)
  {
    FrameRoundTrip(p, m, more);
  }

  /** The results of reading the messages and then the end of the stream. */
  function Expected(msgs: seq<seq<byte>>): seq<Result> {
    if msgs == [] then [Err(EndOfStream)] else [Ok(msgs[0])] + Expected(msgs[1..])
  }

  /** Any number of frames one after the other is read back in order, and then the stream ends. */
  lemma {:induction false} StreamRoundTrip(p: Parser, msgs: seq<seq<byte>>)
    requires Sane(p) && forall i :: 0 <= i < |msgs| ==> Fits(p, msgs[i])
    ensures ReadMany(p, Stream(p, msgs), |msgs| + 1) == Expected(msgs)
    decreases |msgs|
  {
    if msgs == [] {
      assert ReadMany(p, ReadFrame(p, []).1, 0) == [];
    } else {
      ReadNext(p, msgs[0], Stream(p, msgs[1..]), |msgs|);
      StreamRoundTrip(p, msgs[1..]);
    }
  }

  /** What Write sends is the frame of its concatenated arguments. */
  lemma SentIsFrame(p: Parser, args: seq<seq<byte>>)
    requires Sane(p) && |Concat(args)| < TWO32
    ensures var n := |Concat(args)| % TWO32; Header(p, n) + Concat(args)[..n] == Frame(p, Concat(args))
  {
  }

  // ---- writing and reading together ----

  lemma {:induction false} StreamAppend(p: Parser, msgs: seq<seq<byte>>, m: seq<byte>)
    requires p.width >= 0
    ensures Stream(p, msgs + [m]) == Stream(p, msgs) + Frame(p, m)
  {
    if msgs == [] {
      assert Stream(p, [m]) == Frame(p, m) + Stream(p, [m][1..]) && [m][1..] == [];
      assert [] + [m] == [m];
    } else {
      assert (msgs + [m])[1..] == msgs[1..] + [m];
      StreamAppend(p, msgs[1..], m);
      assert Frame(p, msgs[0]) + (Stream(p, msgs[1..]) + Frame(p, m)) ==
             (Frame(p, msgs[0]) + Stream(p, msgs[1..])) + Frame(p, m);
    }
  }

  /** The concatenated arguments of each write. */
  ghost function Messages(argss: seq<seq<seq<byte>>>): (msgs: seq<seq<byte>>)
    ensures |msgs| == |argss| && forall i :: 0 <= i < |msgs| ==> msgs[i] == Concat(argss[i])
  {
    seq(|argss|, i requires 0 <= i < |argss| => Concat(argss[i]))
  }

  /** The write is let through and its length fits. */
  ghost predicate Passes(p: Parser, args: seq<seq<byte>>)
    requires Sane(p)
  {
    Fits(p, Concat(args)) && (p.maxWrite > 0 ==> |Concat(args)| <= p.maxWrite)
  }

  method WriteAll(p: Parser, argss: seq<seq<seq<byte>>>) returns (stream: seq<byte>)
    requires Sane(p) && forall i :: 0 <= i < |argss| ==> Passes(p, argss[i])
    ensures stream == Stream(p, Messages(argss))
  {
    stream := [];
    ghost var msgs := Messages(argss);
    assert msgs[..0] == [];
    for i := 0 to |argss|
      invariant stream == Stream(p, msgs[..i])
    {
      NoPanic(argss[i]);
      SentIsFrame(p, argss[i]);
      var r := Write(p, argss[i]);
      assert msgs[..i + 1] == msgs[..i] + [msgs[i]];
      StreamAppend(p, msgs[..i], msgs[i]);
      stream := stream + r.frame;
    }
    assert msgs[..|msgs|] == msgs;
  }

  method ReadOne(r: Reader, p: Parser, ghost msgs: seq<seq<byte>>, ghost i: nat) returns (m: seq<byte>)
    requires Sane(p) && i < |msgs| && Fits(p, msgs[i]) && r.rest == Stream(p, msgs[i..])
    modifies r
    ensures m == msgs[i] && r.rest == Stream(p, msgs[i + 1..])
  {
    FrameRoundTrip(p, msgs[i], Stream(p, msgs[i + 1..]));
    assert msgs[i..][1..] == msgs[i + 1..];
    var one := r.Read(p);
    m := one.data;
  }

  /** Whatever is written is read back: each read returns the concatenated arguments of one write,
      in order, and nothing is left. */
  method WriteThenRead(p: Parser, argss: seq<seq<seq<byte>>>) returns (data: seq<seq<byte>>)
    requires Sane(p) && forall i :: 0 <= i < |argss| ==> Passes(p, argss[i])
    ensures data == Messages(argss)
  {
    ghost var msgs := Messages(argss);
    var r := new Reader;
    var stream := WriteAll(p, argss);
    r.rest := stream;
    data := [];
    assert msgs[0..] == msgs;
    for i := 0 to |argss|
      invariant r.rest == Stream(p, msgs[i..]) && data == msgs[..i] && fresh(r)
    {
      var one := ReadOne(r, p, msgs, i);
      data := data + [one];
    }
    assert msgs[..|msgs|] == msgs;
  }
}
