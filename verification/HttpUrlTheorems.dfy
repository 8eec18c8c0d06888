/** A parsed URL is a partition of its buffer. */
module HttpUrlTheorems {
  import opened Options
  import opened HttpChars
  import opened HttpMachine
  import opened UrlWalk
  import opened HttpUrl

  /** The value of the digits from position i on, as strtoul reads them. */
  function DigitsValue(buf: seq<Byte>, i: nat, value: nat): nat
    requires i <= |buf|
    decreases |buf| - i
  {
    if i < |buf| && IsNum(buf[i]) then DigitsValue(buf, i + 1, value * 10 + DigitValue(buf[i])) else value
  }

  /** What a successful call leaves in the struct: the fields that are set, and the port. */
  datatype Parts = Parts(data: Fields, port: nat)

  function HostStartOf(foundAt: bool): HostState { if foundAt then UserinfoStart else HostStart }

  /** http_parse_host: the fields after it, unless it fails. */
  function ParseHost(buf: seq<Byte>, data: Fields, foundAt: bool): Option<Fields>
    requires HOST in data && data[HOST].off + data[HOST].len <= |buf|
  {
    var y := SecondPass(buf, data[HOST].off, HostStartOf(foundAt), data, data[HOST].len);
    if HostEnds(y.s) then Some(y.data) else None
  }

  lemma FirstInside(buf: seq<Byte>, start: State)
    ensures var d := FirstPass(buf, start, |buf|).data;
            HOST in d ==> d[HOST].len > 0 && d[HOST].off + d[HOST].len <= |buf|
  {
    FirstSpans(buf, start, |buf|);
  }

  /** The checks after the passes, and the port. */
  function Checked(buf: seq<Byte>, data: Fields, isConnect: bool): Option<Parts> {
    if isConnect && data.Keys != {HOST, PORT} then None
    else if PORT in data && data[PORT].off <= |buf| then
      var v := DigitsValue(buf, data[PORT].off, 0);
      if v > 0xffff then None else Some(Parts(data, v))
    else Some(Parts(data, 0))
  }

  /** http_parser_parse_url. */
  function ParseUrl(buf: seq<Byte>, isConnect: bool): Option<Parts> {
    var x := FirstPass(buf, StartOf(isConnect), |buf|);
    FirstInside(buf, StartOf(isConnect));
    if x.s == Dead then None
    else if SCHEMA in x.data && HOST !in x.data then None
    else if HOST in x.data then
      var d := ParseHost(buf, x.data, x.foundAt);
      if d == None then None else Checked(buf, d.value, isConnect)
    else Checked(buf, x.data, isConnect)
  }

  predicate Allowed(f: Field, c: Byte) { if OfAuthority(f) then HostFieldChar(f, c) else FieldChar(f, c) }

  /**
   Non-empty spans inside the buffer, in order and apart, holding only bytes their fields allow; the
   rest are delimiters.
   */
  ghost predicate Partition(buf: seq<Byte>, data: Fields) {
    && (forall f :: f in data ==> data[f].len > 0 && data[f].off + data[f].len <= |buf|)
    && (forall f, g :: f in data && g in data && Order(f) < Order(g) ==> data[f].off + data[f].len <= data[g].off)
    && (forall f, k :: f in data && data[f].off <= k < data[f].off + data[f].len ==> Allowed(f, buf[k]))
    && (forall k :: 0 <= k < |buf| && (forall f :: f in data ==> !Inside(data, f, k)) ==> Delimiter(buf[k]))
  }

  /** A division into classes that is in order, with allowed bytes. */
  ghost predicate Ordered(cls: Classes) {
    forall k, l :: 0 <= k < l < |cls| && cls[k].Some? && cls[l].Some? ==> Order(cls[k].value) <= Order(cls[l].value)
  }

  ghost predicate Fits(buf: seq<Byte>, cls: Classes) {
    |cls| == |buf| && forall k :: 0 <= k < |cls| ==> if cls[k] == None then Delimiter(buf[k])
        else Allowed(cls[k].value, buf[k])
  }

  lemma ClassesPartition(buf: seq<Byte>, cls: Classes, data: Fields)
    requires Spanned(cls, data) && Ordered(cls) && Fits(buf, cls)
    ensures Partition(buf, data)
  {
    hide Order, Allowed, Delimiter;
    forall f, g | f in data && g in data && Order(f) < Order(g)
      ensures data[f].off + data[f].len <= data[g].off
    {
      ApartInOrder(cls, data, f, g);
    }
    forall k | 0 <= k < |buf| && (forall f :: f in data ==> !Inside(data, f, k))
      ensures Delimiter(buf[k])
    {
      InNoField(cls, data, k);
    }
    hide Ordered;
  }

  lemma ApartInOrder(cls: Classes, data: Fields, f: Field, g: Field)
    requires Spanned(cls, data) && Ordered(cls) && f in data && g in data && Order(f) < Order(g)
    ensures data[f].off + data[f].len <= data[g].off
  {
    var k, l := data[f].off + data[f].len - 1, data[g].off;
    assert cls[k] == Some(f) && cls[l] == Some(g);
  }

  lemma InNoField(cls: Classes, data: Fields, k: nat)
    requires Spanned(cls, data) && k < |cls| && forall f :: f in data ==> !Inside(data, f, k)
    ensures cls[k] == None
  {
    assert cls[k].Some? ==> Inside(data, cls[k].value, k);
  }

  lemma FirstFits(buf: seq<Byte>, start: State, k: nat)
    requires k < |buf| && Walk(buf, start, |buf|) != Dead && (start == ReqSpacesBeforeUrl || start == ReqServerStart)
    ensures var f := FieldOf(Walk(buf, start, k + 1));
            if f == None then Delimiter(buf[k]) else FieldChar(f.value, buf[k])
    ensures Stage(Walk(buf, start, k + 1)) < 11
  {
    hide Stage, FieldOf, Walk, ParseUrlChar;
    StaysAlive(buf, start, k + 1, |buf|);
    WalkStep(buf, start, k + 1);
    StaysAlive(buf, start, k, |buf|);
    UrlStep(Walk(buf, start, k), buf[k]);
  }

  lemma {:induction false} StaysAlive(buf: seq<Byte>, start: State, m: nat, n: nat)
    requires m <= n <= |buf| && Walk(buf, start, n) != Dead && (start == ReqSpacesBeforeUrl || start == ReqServerStart)
    ensures Walk(buf, start, m) != Dead && Stage(Walk(buf, start, m)) < 11
  {
    hide ParseUrlChar;
    if m < n {
      DeadStays(Walk(buf, start, n - 1), buf[n - 1]);
      StaysAlive(buf, start, m, n - 1);
    } else {
      AliveStage(buf, start, n);
    }
  }

  lemma DeadStays(s: State, ch: Byte)
    ensures s == Dead ==> ParseUrlChar(s, ch) == Dead
  {
  }

  lemma {:induction false} AliveStage(buf: seq<Byte>, start: State, n: nat)
    requires n <= |buf| && (start == ReqSpacesBeforeUrl || start == ReqServerStart)
    ensures Stage(Walk(buf, start, n)) == 11 <==> Walk(buf, start, n) == Dead
  {
    if n > 0 {
      AliveStage(buf, start, n - 1);
      UrlStep(Walk(buf, start, n - 1), buf[n - 1]);
    }
  }

  lemma HostFits(buf: seq<Byte>, start: HostState, k: nat, n: nat)
    requires k < n <= |buf| && HostWalk(buf, start, n) != HostDead
    ensures var f := HostFieldOf(HostWalk(buf, start, k + 1));
            if f == None then Delimiter(buf[k]) else OfAuthority(f.value) && HostFieldChar(f.value, buf[k])
  {
    hide HostWalk, ParseHostChar, HostFieldChar, Delimiter;
    HostAlive(buf, start, k + 1, n);
    HostWalkStep(buf, start, k + 1);
    HostStep(HostWalk(buf, start, k), buf[k]);
    AuthorityField(HostWalk(buf, start, k + 1));
  }

  lemma HostAlive(buf: seq<Byte>, start: HostState, m: nat, n: nat)
    requires m <= n <= |buf| && HostWalk(buf, start, n) != HostDead
    ensures HostWalk(buf, start, m) != HostDead
  {
    hide HostWalk;
    HostWalkForward(buf, start, m, n);
  }

  /** The order of the fields is the order of the stages. */
  lemma StageOrder(s: State, t: State)
    requires Stage(s) <= Stage(t) && FieldOf(s).Some? && FieldOf(t).Some?
    ensures Order(FieldOf(s).value) <= Order(FieldOf(t).value)
  {
  }

  lemma HostStageOrder(s: HostState, t: HostState)
    requires HostStage(s) <= HostStage(t) && HostFieldOf(s).Some? && HostFieldOf(t).Some?
    ensures Order(HostFieldOf(s).value) <= Order(HostFieldOf(t).value)
  {
  }

  /** The classes of the first pass without the host. */
  ghost function HostCleared(cls: Classes): (c: Classes)
    ensures |c| == |cls|
  {
    seq(|cls|, k requires 0 <= k < |cls| => if cls[k] == Some(HOST) then None else cls[k])
  }

  lemma FirstHasNoParts(buf: seq<Byte>, start: State, n: nat)
    requires n <= |buf|
    ensures var cls := FirstClasses(buf, start, n);
            forall k :: 0 <= k < n && cls[k].Some? && cls[k] != Some(HOST) ==> !OfAuthority(cls[k].value)
  {
  }

  lemma AuthorityUndivided(cls: Classes, data: Fields)
    requires Spanned(cls, data) && HOST in data
    requires forall k :: 0 <= k < |cls| && cls[k].Some? && cls[k] != Some(HOST) ==> !OfAuthority(cls[k].value)
    ensures Undivided(HostCleared(cls), data - {HOST}, data[HOST].off, data[HOST].len)
  {
    var c, d := HostCleared(cls), data - {HOST};
    forall f | OfAuthority(f)
      ensures f !in d
    {
      if f in d {
        FieldSeen(cls, data, f);
      }
    }
    forall k | 0 <= k < |c| && c[k].Some?
      ensures Inside(d, c[k].value, k)
    {
      assert Inside(data, cls[k].value, k);
    }
    forall f, k | f in d && d[f].off <= k < d[f].off + d[f].len
      ensures c[k] == Some(f)
    {
      assert cls[k] == Some(f);
    }
  }

  /** Bytes of the first pass in order. */
  lemma FirstInOrder(buf: seq<Byte>, start: State, k: nat, l: nat)
    requires k < l < |buf| && FieldOf(Walk(buf, start, k + 1)).Some? && FieldOf(Walk(buf, start, l + 1)).Some?
    ensures Order(FieldOf(Walk(buf, start, k + 1)).value) <= Order(FieldOf(Walk(buf, start, l + 1)).value)
  {
    hide Walk, Stage, FieldOf, Order;
    WalkForward(buf, start, k + 1, l + 1);
    StageOrder(Walk(buf, start, k + 1), Walk(buf, start, l + 1));
  }

  lemma HostInOrder(buf: seq<Byte>, start: HostState, k: nat, l: nat)
    requires k < l < |buf| && HostFieldOf(HostWalk(buf, start, k + 1)).Some? &&
        HostFieldOf(HostWalk(buf, start, l + 1)).Some?
    ensures Order(HostFieldOf(HostWalk(buf, start, k + 1)).value) <= Order(HostFieldOf(HostWalk(buf, start,
        l + 1)).value)
  {
    hide HostWalk, HostStage, HostFieldOf, Order;
    HostWalkForward(buf, start, k + 1, l + 1);
    HostStageOrder(HostWalk(buf, start, k + 1), HostWalk(buf, start, l + 1));
  }

  lemma NoHost(buf: seq<Byte>, start: State, data: Fields)
    requires Walk(buf, start, |buf|) != Dead && (start == ReqSpacesBeforeUrl || start == ReqServerStart)
    requires Spanned(FirstClasses(buf, start, |buf|), data) && HOST !in data
    ensures Partition(buf, data)
  {
    hide Walk, FieldOf, Delimiter, FieldChar, HostFieldChar, Order, Spanned, Partition;
    var cls := FirstClasses(buf, start, |buf|);
    forall k, l | 0 <= k < l < |cls| && cls[k].Some? && cls[l].Some?
      ensures Order(cls[k].value) <= Order(cls[l].value)
    {
      FirstInOrder(buf, start, k, l);
    }
    forall k | 0 <= k < |cls|
      ensures if cls[k] == None then Delimiter(buf[k]) else Allowed(cls[k].value, buf[k])
    {
      FirstFits(buf, start, k);
      NotThere(cls, data, k);
      FirstPart(Walk(buf, start, k + 1));
    }
    ClassesPartition(buf, cls, data);
  }

  lemma NotThere(cls: Classes, data: Fields, k: nat)
    requires Spanned(cls, data) && HOST !in data && k < |cls|
    ensures cls[k] != Some(HOST)
  {
    assert cls[k] == Some(HOST) ==> Inside(data, HOST, k);
  }

  lemma FirstPart(s: State)
    ensures FieldOf(s).Some? && FieldOf(s) != Some(HOST) ==> !OfAuthority(FieldOf(s).value)
  {
  }

  /** The classes after both passes. */
  ghost function BothClasses(buf: seq<Byte>, start: State, off: nat, len: nat, hs: HostState): (c: Classes)
    requires off + len <= |buf|
    ensures |c| == |buf|
  {
    SecondClasses(HostCleared(FirstClasses(buf, start, |buf|)), buf, off, len, hs, len)
  }

  /** A byte outside the authority has its class of the first pass; inside it had the class of the host. */
  lemma ClassHere(buf: seq<Byte>, start: State, data: Fields, hs: HostState, k: nat)
    requires k < |buf| && Spanned(FirstClasses(buf, start, |buf|), data) && HOST in data
    ensures data[HOST].off + data[HOST].len <= |buf|
    ensures var c := BothClasses(buf, start, data[HOST].off, data[HOST].len, hs)[k];
            var f := FieldOf(Walk(buf, start, k + 1));
            if Inside(data, HOST, k) then f == Some(HOST) &&
                c == HostFieldOf(HostWalk(buf[data[HOST].off..], hs, k - data[HOST].off + 1))
            else f != Some(HOST) && c == f
  {
    hide Walk, FieldOf, HostWalk, HostFieldOf;
    var cls := FirstClasses(buf, start, |buf|);
    assert cls[k] == Some(HOST) ==> Inside(data, HOST, k);
    assert Inside(data, HOST, k) ==> cls[k] == Some(HOST);
  }

  lemma BothOrdered(buf: seq<Byte>, start: State, data: Fields, hs: HostState)
    requires Spanned(FirstClasses(buf, start, |buf|), data) && HOST in data
    ensures data[HOST].off + data[HOST].len <= |buf|
    ensures Ordered(BothClasses(buf, start, data[HOST].off, data[HOST].len, hs))
  {
    hide Walk, FieldOf, HostWalk, HostFieldOf, Order, BothClasses, Spanned;
    HostInside(buf, start, data);
    var off, len := data[HOST].off, data[HOST].len;
    var c := BothClasses(buf, start, off, len, hs);
    forall k, l | 0 <= k < l < |c| && c[k].Some? && c[l].Some?
      ensures Order(c[k].value) <= Order(c[l].value)
    {
      BothInOrder(buf, start, data, hs, k, l);
    }
  }

  lemma HostInside(buf: seq<Byte>, start: State, data: Fields)
    requires Spanned(FirstClasses(buf, start, |buf|), data) && HOST in data
    ensures data[HOST].off + data[HOST].len <= |buf|
  {
  }

  lemma BothInOrder(buf: seq<Byte>, start: State, data: Fields, hs: HostState, k: nat, l: nat)
    requires Spanned(FirstClasses(buf, start, |buf|), data) && HOST in data && k < l < |buf|
    requires data[HOST].off + data[HOST].len <= |buf|
    ensures var c := BothClasses(buf, start, data[HOST].off, data[HOST].len, hs);
            c[k].Some? && c[l].Some? ==> Order(c[k].value) <= Order(c[l].value)
  {
    hide Walk, FieldOf, HostWalk, HostFieldOf, Order, BothClasses, Spanned;
    var off := data[HOST].off;
    var c := BothClasses(buf, start, off, data[HOST].len, hs);
    ClassHere(buf, start, data, hs, k);
    ClassHere(buf, start, data, hs, l);
    if c[k].Some? && c[l].Some? {
      if Inside(data, HOST, k) && Inside(data, HOST, l) {
        HostInOrder(buf[off..], hs, k - off, l - off);
      } else {
        FirstInOrder(buf, start, k, l);
        FirstPart(Walk(buf, start, k + 1));
        FirstPart(Walk(buf, start, l + 1));
        if Inside(data, HOST, k) {
          AuthorityField(HostWalk(buf[off..], hs, k - off + 1));
        }
        if Inside(data, HOST, l) {
          AuthorityField(HostWalk(buf[off..], hs, l - off + 1));
        }
        AuthorityBetween(FieldOf(Walk(buf, start, k + 1)).value, FieldOf(Walk(buf, start, l + 1)).value, c[k].value,
            c[l].value);
      }
    }
  }

  /** A part of the authority takes the place of the host in the order. */
  lemma AuthorityBetween(f: Field, g: Field, f': Field, g': Field)
    requires Order(f) <= Order(g) && (f' == f || (f == HOST && OfAuthority(f'))) &&
        (g' == g || (g == HOST && OfAuthority(g')))
    requires (f == HOST || !OfAuthority(f)) && (g == HOST || !OfAuthority(g)) && (f == HOST ==> g != HOST)
    ensures Order(f') <= Order(g')
  {
  }

  lemma BothFits(buf: seq<Byte>, start: State, data: Fields, hs: HostState)
    requires Walk(buf, start, |buf|) != Dead && (start == ReqSpacesBeforeUrl || start == ReqServerStart)
    requires Spanned(FirstClasses(buf, start, |buf|), data) && HOST in data
    requires data[HOST].off + data[HOST].len <= |buf| && HostWalk(buf[data[HOST].off..], hs, data[HOST].len) != HostDead
    ensures Fits(buf, BothClasses(buf, start, data[HOST].off, data[HOST].len, hs))
  {
    hide Walk, FieldOf, HostWalk, HostFieldOf, BothClasses, Spanned, Delimiter, FieldChar, HostFieldChar;
    var off, len := data[HOST].off, data[HOST].len;
    var c := BothClasses(buf, start, off, len, hs);
    forall k | 0 <= k < |c|
      ensures if c[k] == None then Delimiter(buf[k]) else Allowed(c[k].value, buf[k])
    {
      ClassHere(buf, start, data, hs, k);
      if Inside(data, HOST, k) {
        HostFits(buf[off..], hs, k - off, len);
      } else {
        FirstFits(buf, start, k);
        FirstPart(Walk(buf, start, k + 1));
      }
    }
  }

  /** After both passes. */
  lemma HostPartition(buf: seq<Byte>, start: State, foundAt: bool)
    requires Walk(buf, start, |buf|) != Dead && (start == ReqSpacesBeforeUrl || start == ReqServerStart)
    requires var d := FirstPass(buf, start, |buf|).data;
             HOST in d && d[HOST].off + d[HOST].len <= |buf| && ParseHost(buf, d, foundAt).Some?
    ensures Partition(buf, ParseHost(buf, FirstPass(buf, start, |buf|).data, foundAt).value)
  {
    hide Walk, HostWalk, Spanned, Partition, SecondPass, FirstPass;
    var d := FirstPass(buf, start, |buf|).data;
    var hs, off, len := HostStartOf(foundAt), d[HOST].off, d[HOST].len;
    var cls := FirstClasses(buf, start, |buf|);
    FirstSpans(buf, start, |buf|);
    FirstHasNoParts(buf, start, |buf|);
    AuthorityUndivided(cls, d);
    SecondSpans(HostCleared(cls), buf, off, len, hs, d, len);
    BothOrdered(buf, start, d, hs);
    BothFits(buf, start, d, hs);
    ClassesPartition(buf, BothClasses(buf, start, off, len, hs), SecondPass(buf, off, hs, d, len).data);
  }

  /** A URL that is parsed is divided into its fields, in order; between them stand delimiters only. */
  lemma UrlPartition(buf: seq<Byte>, isConnect: bool)
    requires ParseUrl(buf, isConnect).Some?
    ensures Partition(buf, ParseUrl(buf, isConnect).value.data)
  {
    hide Partition, Spanned, Walk;
    var start := StartOf(isConnect);
    var x := FirstPass(buf, start, |buf|);
    FirstInside(buf, start);
    FirstSpans(buf, start, |buf|);
    if HOST in x.data {
      HostPartition(buf, start, x.foundAt);
    } else {
      NoHost(buf, start, x.data);
    }
  }

  /** The decimal number that digits write. */
  function Decimal(s: seq<Byte>): nat
    requires forall i :: 0 <= i < |s| ==> IsNum(s[i])
  {
    if s == [] then 0 else Decimal(s[..|s| - 1]) * 10 + DigitValue(s[|s| - 1])
  }

  /** strtoul stops at the end of the run of digits. */
  lemma {:induction false} RunValue(buf: seq<Byte>, a: nat, i: nat, e: nat)
    requires a <= i <= e <= |buf| && (forall k :: a <= k < e ==> IsNum(buf[k])) && (e < |buf| ==> !IsNum(buf[e]))
    ensures DigitsValue(buf, i, Decimal(buf[a..i])) == Decimal(buf[a..e])
    decreases e - i
  {
    if i < e {
      assert buf[a..i + 1][..i - a] == buf[a..i];
      RunValue(buf, a, i + 1, e);
    }
  }

  lemma ServerDigit(s: State, ch: Byte)
    requires FieldOf(s) == Some(HOST) && IsNum(ch)
    ensures FieldOf(ParseUrlChar(s, ch)) == Some(HOST)
  {
    assert s == ReqServer || s == ReqServerWithAt;
    assert IsUserinfoChar(ch);
    hide IsUserinfoChar, FieldOf;
    assert ParseUrlChar(s, ch) == ReqServer;
    assert FieldOf(ReqServer) == Some(HOST) by {
      ServerField();
    }
  }

  lemma ServerField()
    ensures FieldOf(ReqServer) == Some(HOST)
  {
  }

  lemma PortDigit(s: HostState, ch: Byte)
    requires HostFieldOf(s) == Some(PORT) && IsNum(ch)
    ensures HostFieldOf(ParseHostChar(s, ch)) == Some(PORT)
  {
  }

  /** No digit follows the port. */
  lemma AfterPort(buf: seq<Byte>, start: State, data: Fields, hs: HostState, d: Fields)
    requires Spanned(FirstClasses(buf, start, |buf|), data) && HOST in data && data[HOST].off + data[HOST].len <= |buf|
    requires Spanned(BothClasses(buf, start, data[HOST].off, data[HOST].len, hs), d) && PORT in d
    ensures var e := d[PORT].off + d[PORT].len;
            0 < e <= |buf| && (e < |buf| ==> !IsNum(buf[e]))
  {
    hide Walk, FieldOf, HostWalk, HostFieldOf, Spanned, BothClasses, ParseUrlChar, ParseHostChar, IsNum, Inside;
    var off := data[HOST].off;
    var c := BothClasses(buf, start, off, data[HOST].len, hs);
    var e := d[PORT].off + d[PORT].len;
    PortEnd(c, d);
    if e < |buf| {
      NotADigit(buf, start, data, hs, e);
    }
  }

  /** The byte at e is not in the port, although the one before is. */
  lemma NotADigit(buf: seq<Byte>, start: State, data: Fields, hs: HostState, e: nat)
    requires Spanned(FirstClasses(buf, start, |buf|), data) && HOST in data && data[HOST].off + data[HOST].len <= |buf|
    requires 0 < e < |buf|
    requires var c := BothClasses(buf, start, data[HOST].off, data[HOST].len, hs);
        c[e - 1] == Some(PORT) && c[e] != Some(PORT)
    ensures !IsNum(buf[e])
  {
    hide Walk, FieldOf, HostWalk, HostFieldOf, Spanned, BothClasses, ParseUrlChar, ParseHostChar, IsNum;
    var off := data[HOST].off;
    FirstPart(Walk(buf, start, e));
    ClassHere(buf, start, data, hs, e - 1);
    ClassHere(buf, start, data, hs, e);
    assert Inside(data, HOST, e - 1);
    if Inside(data, HOST, e) {
      HostWalkStep(buf[off..], hs, e - off + 1);
      if IsNum(buf[e]) {
        PortDigit(HostWalk(buf[off..], hs, e - off), buf[e]);
      }
    } else {
      WalkStep(buf, start, e + 1);
      if IsNum(buf[e]) {
        ServerDigit(Walk(buf, start, e), buf[e]);
      }
    }
  }

  lemma HostWalkStep(buf: seq<Byte>, start: HostState, n: nat)
    requires 0 < n <= |buf|
    ensures HostWalk(buf, start, n) == ParseHostChar(HostWalk(buf, start, n - 1), buf[n - 1])
  {
  }

  lemma PortEnd(c: Classes, d: Fields)
    requires Spanned(c, d) && PORT in d
    ensures var e := d[PORT].off + d[PORT].len;
            0 < e <= |c| && c[e - 1] == Some(PORT) && (e < |c| ==> c[e] != Some(PORT))
  {
    var e := d[PORT].off + d[PORT].len;
    assert Inside(d, PORT, e - 1);
    assert e < |c| && c[e] == Some(PORT) ==> Inside(d, PORT, e);
  }

  /**
   The port is the number its digits write, and it fits sixteen bits; a URL with a schema has a
   host; CONNECT has a host and a port only.
   */
  lemma UrlPort(buf: seq<Byte>, isConnect: bool)
    requires ParseUrl(buf, isConnect).Some?
    ensures var u := ParseUrl(buf, isConnect).value;
            && (SCHEMA in u.data ==> HOST in u.data)
            && (isConnect ==> u.data.Keys == {HOST, PORT})
            && (PORT in u.data ==>
                  var s := u.data[PORT];
                  && s.off + s.len <= |buf| && (forall k :: s.off <= k < s.off + s.len ==> IsNum(buf[k]))
                  && u.port == Decimal(buf[s.off..s.off + s.len]) && u.port <= 65535)
            && (PORT !in u.data ==> u.port == 0)
  {
    hide Spanned, Walk, FirstPass, SecondPass, HostWalk, Partition, Checked, Decimal, DigitsValue, ParseHost;
    var start := StartOf(isConnect);
    var x := FirstPass(buf, start, |buf|);
    var u := ParseUrl(buf, isConnect).value;
    UrlPartition(buf, isConnect);
    FirstInside(buf, start);
    FirstSpans(buf, start, |buf|);
    CheckedFacts(buf, u.data, isConnect);
    if HOST in x.data {
      assert Some(u) == Checked(buf, ParseHost(buf, x.data, x.foundAt).value, isConnect);
      HostKept(buf, x.data, x.foundAt);
      CheckedFacts(buf, ParseHost(buf, x.data, x.foundAt).value, isConnect);
    } else {
      CheckedFacts(buf, x.data, isConnect);
      NoPort(buf, start, x.data);
    }
    if PORT in u.data {
      PortDigits(buf, u.data);
      PortRun(buf, start, x.foundAt);
      var s := u.data[PORT];
      RunValue(buf, s.off, s.off, s.off + s.len);
      DecimalNothing(buf, s.off);
    }
  }

  lemma DecimalNothing(buf: seq<Byte>, i: nat)
    requires i <= |buf|
    ensures Decimal(buf[i..i]) == 0
  {
  }

  lemma CheckedFacts(buf: seq<Byte>, data: Fields, isConnect: bool)
    ensures Checked(buf, data, isConnect).Some? ==>
              var u := Checked(buf, data, isConnect).value;
              && u.data == data && (isConnect ==> data.Keys == {HOST, PORT})
              && (PORT in data && data[PORT].off <= |buf| ==>
                  u.port == DigitsValue(buf, data[PORT].off, 0) && u.port <= 65535)
              && (PORT !in data ==> u.port == 0)
  {
  }

  lemma HostKept(buf: seq<Byte>, data: Fields, foundAt: bool)
    requires HOST in data && data[HOST].off + data[HOST].len <= |buf| && ParseHost(buf, data, foundAt).Some?
    ensures HOST in ParseHost(buf, data, foundAt).value
  {
  }

  lemma PortDigits(buf: seq<Byte>, data: Fields)
    requires Partition(buf, data) && PORT in data
    ensures var s := data[PORT]; s.off + s.len <= |buf| && forall k :: s.off <= k < s.off + s.len ==> IsNum(buf[k])
  {
    assert forall k :: data[PORT].off <= k < data[PORT].off + data[PORT].len ==> Allowed(PORT, buf[k]);
  }

  lemma NoPort(buf: seq<Byte>, start: State, data: Fields)
    requires Spanned(FirstClasses(buf, start, |buf|), data)
    ensures PORT !in data
  {
    FirstHasNoParts(buf, start, |buf|);
    if PORT in data {
      FieldSeen(FirstClasses(buf, start, |buf|), data, PORT);
    }
  }

  lemma PortRun(buf: seq<Byte>, start: State, foundAt: bool)
    requires var d := FirstPass(buf, start, |buf|).data;
             HOST in d && d[HOST].off + d[HOST].len <= |buf| && ParseHost(buf, d, foundAt).Some? &&
                 PORT in ParseHost(buf, d, foundAt).value
    ensures var s := ParseHost(buf, FirstPass(buf, start, |buf|).data, foundAt).value[PORT];
            s.off + s.len <= |buf| && (s.off + s.len < |buf| ==> !IsNum(buf[s.off + s.len]))
  {
    hide Walk, HostWalk, Spanned, SecondPass, FirstPass;
    var d := FirstPass(buf, start, |buf|).data;
    var hs, off, len := HostStartOf(foundAt), d[HOST].off, d[HOST].len;
    var cls := FirstClasses(buf, start, |buf|);
    FirstSpans(buf, start, |buf|);
    FirstHasNoParts(buf, start, |buf|);
    AuthorityUndivided(cls, d);
    SecondSpans(HostCleared(cls), buf, off, len, hs, d, len);
    AfterPort(buf, start, d, hs, SecondPass(buf, off, hs, d, len).data);
  }
}
