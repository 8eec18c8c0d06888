/** http_parser_parse_url: the fields of a URL as spans of the buffer, in two passes. */
module HttpUrl {
  import opened Options
  import opened HttpChars
  import opened HttpMachine
  import opened UrlWalk

  /** A field: where it starts and how long it is. Sixteen bits are enough, as buffers are no longer than this. */
  datatype Span = Span(off: nat, len: nat)
  const MAX_URL: nat := 65535

  type Fields = map<Field, Span>

  /** The state between two bytes of the first pass. */
  datatype First = First(s: State, foundAt: bool, last: Option<Field>, data: Fields)

  /** The field f gets the byte at p: it starts, or it is one byte longer. */
  function Extended(data: Fields, f: Field, start: bool, p: nat): Fields
    requires !start ==> f in data
  {
    data[f := if start then Span(p, 1) else Span(data[f].off, data[f].len + 1)]
  }

  function FirstStep(x: First, ch: Byte, p: nat): First
    requires x.last.Some? ==> x.last.value in x.data
  {
    var s := ParseUrlChar(x.s, ch);
    var uf := FieldOf(s);
    if uf == None then x.(s := s)
    else First(s, x.foundAt || s == ReqServerWithAt, uf, Extended(x.data, uf.value, uf != x.last, p))
  }

  function FirstPass(buf: seq<Byte>, start: State, n: nat): (x: First)
    requires n <= |buf|
    ensures x.last.Some? ==> x.last.value in x.data
    ensures x.s == Walk(buf, start, n)
  {
    if n == 0 then First(start, false, None, map[]) else FirstStep(FirstPass(buf, start, n - 1), buf[n - 1], n - 1)
  }

  /** The state of the second pass, which fills the fields of the authority. */
  datatype Second = Second(s: HostState, data: Fields)

  function SecondStep(x: Second, ch: Byte, p: nat): Second
    requires HOST in x.data && (x.s == HostPort ==> PORT in x.data) && (x.s == Userinfo ==> USERINFO in x.data)
  {
    var t := ParseHostChar(x.s, ch);
    var host := x.data[HOST];
    if t == Host || t == HostV6 then Second(t, x.data[HOST := Span(if t != x.s then p else host.off, host.len + 1)])
    else if t == HostV6ZoneStart || t == HostV6Zone then Second(t, x.data[HOST := Span(host.off, host.len + 1)])
    else if t == HostPort then Second(t, Extended(x.data, PORT, x.s != HostPort, p))
    else if t == Userinfo then Second(t, Extended(x.data, USERINFO, x.s != Userinfo, p))
    else Second(t, x.data)
  }

  /** The bytes of the authority from `off` on; the host field is emptied first. */
  function SecondPass(buf: seq<Byte>, off: nat, start: HostState, data: Fields, n: nat): (x: Second)
    requires off + n <= |buf| && HOST in data && (start == UserinfoStart || start == HostStart)
    ensures HOST in x.data && (x.s == HostPort ==> PORT in x.data) && (x.s == Userinfo ==> USERINFO in x.data)
    ensures x.s == HostWalk(buf[off..], start, n)
  {
    if n == 0 then Second(start, data[HOST := Span(off, 0)])
    else SecondStep(SecondPass(buf, off, start, data, n - 1), buf[off + n - 1], off + n - 1)
  }

  predicate HostEnds(s: HostState) { s == Host || s == HostV6End || s == HostPort }

  /** Each byte's field, or none for a delimiter. */
  type Classes = seq<Option<Field>>

  /** The spans are exactly the bytes of their fields. */
  ghost predicate Spanned(cls: Classes, data: Fields) {
    && (forall f :: f in data ==> data[f].len > 0 && data[f].off + data[f].len <= |cls|)
    && (forall f, k :: f in data && data[f].off <= k < data[f].off + data[f].len ==> cls[k] == Some(f))
    && (forall k :: 0 <= k < |cls| && cls[k].Some? ==> Inside(data, cls[k].value, k))
  }

  predicate Inside(data: Fields, f: Field, k: nat) { f in data && data[f].off <= k < data[f].off + data[f].len }

  /** The last field ends where only delimiters follow. */
  ghost predicate LastOk(cls: Classes, data: Fields, last: Option<Field>) {
    && (last == None ==> data == map[])
    && (last.Some? ==> last.value in data && forall k :: data[last.value].off + data[last.value].len <= k < |cls| ==>
        cls[k] == None)
  }

  lemma DelimiterSpanned(cls: Classes, data: Fields, last: Option<Field>)
    requires Spanned(cls, data) && LastOk(cls, data, last)
    ensures Spanned(cls + [None], data) && LastOk(cls + [None], data, last)
  {
    var c := cls + [None];
    forall k | 0 <= k < |c| && c[k].Some?
      ensures Inside(data, c[k].value, k)
    {
      assert cls[k].Some?;
    }
  }

  /** A byte of a field that did not occur yet, or that the byte before belongs to. */
  lemma ByteSpanned(cls: Classes, data: Fields, last: Option<Field>, f: Field)
    requires Spanned(cls, data) && LastOk(cls, data, last)
    requires f in data ==> cls != [] && cls[|cls| - 1] == Some(f)
    ensures (f in data) == (last == Some(f))
    ensures var d := Extended(data, f, Some(f) != last, |cls|);
            Spanned(cls + [Some(f)], d) && LastOk(cls + [Some(f)], d, Some(f))
  {
    var n := |cls|;
    if f in data {
      assert Inside(data, f, n - 1);
      assert last.Some? && (cls[n - 1] == None || Inside(data, last.value, n - 1));
    }
    var c, d := cls + [Some(f)], Extended(data, f, Some(f) != last, n);
    forall k | 0 <= k < |c| && c[k].Some?
      ensures Inside(d, c[k].value, k)
    {
      assert k < n ==> cls[k] == c[k] && Inside(data, cls[k].value, k);
    }
  }

  function StartOf(isConnect: bool): State { if isConnect then ReqServerStart else ReqSpacesBeforeUrl }

  ghost function FirstClasses(buf: seq<Byte>, start: State, n: nat): (c: Classes)
    requires n <= |buf|
    ensures |c| == n
  {
    seq(n, k requires 0 <= k < n => FieldOf(Walk(buf, start, k + 1)))
  }

  lemma {:induction false} WalkForward(buf: seq<Byte>, start: State, m: nat, n: nat)
    requires m <= n <= |buf|
    ensures Stage(Walk(buf, start, m)) <= Stage(Walk(buf, start, n))
  {
    hide Stage, ParseUrlChar;
    if m < n {
      WalkForward(buf, start, m, n - 1);
      UrlStep(Walk(buf, start, n - 1), buf[n - 1]);
    }
  }

  /** The fields of the first pass, by stage. */
  lemma StageField(s: State, t: State, f: Field)
    requires FieldOf(s) == Some(f) && Stage(t) == Stage(s)
    ensures FieldOf(t) == Some(f)
  {
    hide FieldOf, Stage;
    FieldStage(s);
    StageHasField(t, f);
  }

  /** The stage of a field. */
  function StageOf(f: Field): nat {
    if f == SCHEMA then 1 else if f == HOST then 5 else if f == PATH then 6 else if f == QUERY then 8
        else if f == FRAGMENT then 10 else 12
  }

  lemma FieldStage(s: State)
    ensures FieldOf(s).Some? ==> Stage(s) == StageOf(FieldOf(s).value)
  {
  }

  lemma StageHasField(s: State, f: Field)
    requires Stage(s) == StageOf(f)
    ensures FieldOf(s) == Some(f)
  {
  }

  lemma SameStage(s: State, t: State, f: Field)
    requires FieldOf(s) == Some(f) && FieldOf(t) == Some(f)
    ensures Stage(s) == Stage(t)
  {
    hide FieldOf, Stage;
    FieldStage(s);
    FieldStage(t);
  }

  /** A field's bytes stand together. */
  lemma Together(buf: seq<Byte>, start: State, k: nat, n: nat, f: Field)
    requires 0 < k < n <= |buf| && FieldOf(Walk(buf, start, k)) == Some(f) && FieldOf(Walk(buf, start, n)) == Some(f)
    ensures FieldOf(Walk(buf, start, n - 1)) == Some(f)
  {
    hide Walk, Stage, FieldOf;
    SameStage(Walk(buf, start, k), Walk(buf, start, n), f);
    WalkForward(buf, start, k, n - 1);
    WalkForward(buf, start, n - 1, n);
    StageField(Walk(buf, start, k), Walk(buf, start, n - 1), f);
  }

  lemma {:induction false} FirstSpans(buf: seq<Byte>, start: State, n: nat)
    requires n <= |buf|
    ensures var x := FirstPass(buf, start, n);
            Spanned(FirstClasses(buf, start, n), x.data) && LastOk(FirstClasses(buf, start, n), x.data, x.last)
  {
    hide Spanned, LastOk, FieldOf, Walk, FirstStep, ParseUrlChar, FirstClasses;
    if n == 0 {
      NothingSpanned();
      assert FirstClasses(buf, start, 0) == [];
    } else {
      FirstSpans(buf, start, n - 1);
      var x, y := FirstPass(buf, start, n - 1), FirstPass(buf, start, n);
      var before := FirstClasses(buf, start, n - 1);
      var uf := FieldOf(Walk(buf, start, n));
      FirstClassStep(buf, start, n);
      WalkStep(buf, start, n);
      assert y == FirstStep(x, buf[n - 1], n - 1);
      FirstStepData(x, buf[n - 1], n - 1);
      hide FirstPass;
      if uf == None {
        DelimiterSpanned(before, x.data, x.last);
      } else {
        SeenBefore(buf, start, x.data, n);
        ByteSpanned(before, x.data, x.last, uf.value);
      }
    }
  }

  lemma FirstClassStep(buf: seq<Byte>, start: State, n: nat)
    requires 0 < n <= |buf|
    ensures FirstClasses(buf, start, n) == FirstClasses(buf, start, n - 1) + [FieldOf(Walk(buf, start, n))]
  {
    hide Walk, FieldOf;
  }

  lemma FirstStepData(x: First, ch: Byte, p: nat)
    requires x.last.Some? ==> x.last.value in x.data
    ensures var y := FirstStep(x, ch, p);
            var uf := FieldOf(ParseUrlChar(x.s, ch));
            && y.s == ParseUrlChar(x.s, ch)
            && (uf == None ==> y.data == x.data && y.last == x.last)
            && (uf != None ==> y.last == uf && y.data == Extended(x.data, uf.value, uf != x.last, p))
  {
    hide ParseUrlChar, FieldOf;
  }

  /** A field that occurs already is that of the byte before. */
  lemma SeenBefore(buf: seq<Byte>, start: State, data: Fields, n: nat)
    requires 0 < n <= |buf| && Spanned(FirstClasses(buf, start, n - 1), data) && FieldOf(Walk(buf, start, n)).Some?
    ensures var f := FieldOf(Walk(buf, start, n)).value;
            f in data ==> n > 1 && FirstClasses(buf, start, n - 1)[n - 2] == Some(f)
  {
    hide Walk, FieldOf, Spanned;
    var f := FieldOf(Walk(buf, start, n)).value;
    var before := FirstClasses(buf, start, n - 1);
    if f in data {
      FieldSeen(before, data, f);
      var k :| 0 <= k < n - 1 && before[k] == Some(f);
      Together(buf, start, k + 1, n, f);
    }
  }

  lemma NothingSpanned()
    ensures Spanned([], map[]) && LastOk([], map[], None)
  {
  }

  lemma WalkStep(buf: seq<Byte>, start: State, n: nat)
    requires 0 < n <= |buf|
    ensures Walk(buf, start, n) == ParseUrlChar(Walk(buf, start, n - 1), buf[n - 1])
  {
  }

  lemma FieldSeen(cls: Classes, data: Fields, f: Field)
    requires Spanned(cls, data) && f in data
    ensures exists k :: 0 <= k < |cls| && cls[k] == Some(f)
  {
    assert cls[data[f].off] == Some(f);
  }

  lemma {:induction false} HostWalkForward(buf: seq<Byte>, start: HostState, m: nat, n: nat)
    requires m <= n <= |buf|
    ensures HostStage(HostWalk(buf, start, m)) <= HostStage(HostWalk(buf, start, n))
  {
    hide HostStage, ParseHostChar;
    if m < n {
      HostWalkForward(buf, start, m, n - 1);
      HostStep(HostWalk(buf, start, n - 1), buf[n - 1]);
    }
  }

  lemma HostStageField(s: HostState, t: HostState, f: Field)
    requires HostFieldOf(s) == Some(f)
    ensures HostFieldOf(t) == Some(f) <==> HostStage(t) == HostStage(s)
  {
  }

  lemma HostTogether(buf: seq<Byte>, start: HostState, k: nat, n: nat, f: Field)
    requires 0 < k < n <= |buf| && HostFieldOf(HostWalk(buf, start, k)) == Some(f) &&
        HostFieldOf(HostWalk(buf, start, n)) == Some(f)
    ensures HostFieldOf(HostWalk(buf, start, n - 1)) == Some(f)
  {
    hide HostWalk, HostStage, HostFieldOf;
    HostStageField(HostWalk(buf, start, k), HostWalk(buf, start, n), f);
    HostWalkForward(buf, start, k, n - 1);
    HostWalkForward(buf, start, n - 1, n);
    HostStageField(HostWalk(buf, start, k), HostWalk(buf, start, n - 1), f);
  }

  /** The classes after n bytes of the authority, which begins at `off` and has `len` bytes. */
  ghost function SecondClasses(cls: Classes, buf: seq<Byte>, off: nat, len: nat, start: HostState, n: nat): (c: Classes)
    requires n <= len && off + len <= |buf| == |cls|
    ensures |c| == |cls|
  {
    seq(|cls|, k requires 0 <= k < |cls| =>
      if off <= k < off + n then HostFieldOf(HostWalk(buf[off..], start, k - off + 1))
      else if off + n <= k < off + len then None
      else cls[k])
  }

  /** The fields without an empty host. */
  function Trimmed(data: Fields): Fields {
    if HOST in data && data[HOST].len == 0 then data - {HOST} else data
  }

  lemma ClassSet(cls: Classes, data: Fields, p: nat, f: Field)
    requires Spanned(cls, data) && p < |cls| && cls[p] == None
    requires f in data ==> data[f].off + data[f].len == p
    ensures Spanned(cls[p := Some(f)], Extended(data, f, f !in data, p))
  {
    var c, d := cls[p := Some(f)], Extended(data, f, f !in data, p);
    forall k | 0 <= k < |c| && c[k].Some?
      ensures Inside(d, c[k].value, k)
    {
      assert k != p ==> cls[k] == c[k] && Inside(data, cls[k].value, k);
    }
    forall g, k | g in d && d[g].off <= k < d[g].off + d[g].len
      ensures c[k] == Some(g)
    {
      assert g != f ==> g in data && d[g] == data[g];
    }
  }

  /** The host field is empty until its first byte. */
  predicate HostLengthOk(x: Second) {
    && HOST in x.data && (HostStage(x.s) < 4 ==> x.data[HOST].len == 0)
    && (4 <= HostStage(x.s) < 8 ==> x.data[HOST].len > 0)
  }

  /** What a step of the second pass does to the fields. */
  lemma SecondExtends(x: Second, ch: Byte, p: nat)
    requires HOST in x.data && (x.s == HostPort ==> PORT in x.data) && (x.s == Userinfo ==> USERINFO in x.data)
    requires HostLengthOk(x)
    ensures HostLengthOk(SecondStep(x, ch, p))
    ensures var y := SecondStep(x, ch, p);
            var f := HostFieldOf(y.s);
            if f == None then y.data == x.data
            else
              && (HostFieldOf(x.s) == f ==> f.value in Trimmed(x.data))
              && Trimmed(y.data) == Extended(Trimmed(x.data), f.value, HostFieldOf(x.s) != f, p)
  {
    HostMoves(x.s, ch);
    hide ParseHostChar;
  }

  /** The host's bytes lead on from its own states only, and it is entered once. */
  lemma HostMoves(s: HostState, ch: Byte)
    ensures var t := ParseHostChar(s, ch);
            && HostStage(t) >= HostStage(s)
            && ((t == Host || t == HostV6) && HostFieldOf(s) == Some(HOST) ==> s == t)
            && (t == HostV6ZoneStart || t == HostV6Zone ==> HostFieldOf(s) == Some(HOST))
            && (HostStage(t) >= 5 && t != HostDead ==> HostStage(s) >= 4)
  {
    hide IsHostChar, IsHex, IsAlphaNum, IsUserinfoChar, IsNum;
  }

  /** The field of the authority's last byte ends just before the next one. */
  lemma EndsHere(cls: Classes, data: Fields, p: nat, f: Field)
    requires Spanned(cls, data) && 0 < p < |cls| && cls[p] == None && cls[p - 1] == Some(f)
    ensures f in data && data[f].off + data[f].len == p
  {
    assert Inside(data, f, p - 1);
  }

  predicate OfAuthority(f: Field) { f == USERINFO || f == HOST || f == PORT }

  /** The authority is not divided yet, and its fields occur nowhere else. */
  ghost predicate Undivided(cls: Classes, data: Fields, off: nat, len: nat) {
    && off + len <= |cls| && Spanned(cls, data)
    && (forall k :: off <= k < off + len ==> cls[k] == None)
    && (forall k :: 0 <= k < |cls| && cls[k].Some? ==> !OfAuthority(cls[k].value))
    && (forall f :: OfAuthority(f) ==> f !in data)
  }

  lemma SecondClassStep(cls: Classes, buf: seq<Byte>, off: nat, len: nat, start: HostState, n: nat)
    requires 0 < n <= len && off + len <= |buf| == |cls|
    ensures var before := SecondClasses(cls, buf, off, len, start, n - 1);
            var p := off + n - 1;
            before[p] == None && SecondClasses(cls, buf, off, len, start, n) ==
                before[p := HostFieldOf(HostWalk(buf[off..], start, n))]
  {
    hide HostWalk, HostFieldOf;
  }

  lemma PreviousByte(cls: Classes, buf: seq<Byte>, off: nat, len: nat, start: HostState, n: nat, f: Field)
    requires 0 < n <= len && off + len <= |buf| == |cls| && HostFieldOf(start) == None
    requires HostFieldOf(HostWalk(buf[off..], start, n - 1)) == Some(f)
    ensures n > 1 && SecondClasses(cls, buf, off, len, start, n - 1)[off + n - 2] == Some(f)
  {
  }

  lemma NotSeen(cls: Classes, buf: seq<Byte>, off: nat, len: nat, start: HostState, d: Fields, n: nat, f: Field)
    requires 0 < n <= len && off + len <= |buf| == |cls|
    requires Spanned(SecondClasses(cls, buf, off, len, start, n - 1), d)
    requires forall k :: 0 <= k < |cls| && cls[k].Some? ==> !OfAuthority(cls[k].value)
    requires HostFieldOf(HostWalk(buf[off..], start, n - 1)) != Some(f) &&
        HostFieldOf(HostWalk(buf[off..], start, n)) == Some(f)
    ensures f !in d
  {
    hide HostWalk, HostFieldOf, Spanned, SecondClasses;
    assert OfAuthority(f) by { AuthorityField(HostWalk(buf[off..], start, n)); }
    hide OfAuthority;
    if f in d {
      var before := SecondClasses(cls, buf, off, len, start, n - 1);
      FieldSeen(before, d, f);
      var k :| 0 <= k < |before| && before[k] == Some(f);
      SecondClassAt(cls, buf, off, len, start, n - 1, k);
      HostTogether(buf[off..], start, k - off + 1, n, f);
    }
  }

  lemma AuthorityField(s: HostState)
    ensures HostFieldOf(s).Some? ==> OfAuthority(HostFieldOf(s).value)
  {
  }

  lemma SecondClassAt(cls: Classes, buf: seq<Byte>, off: nat, len: nat, start: HostState, n: nat, k: nat)
    requires n <= len && off + len <= |buf| == |cls| && k < |cls|
    ensures var c := SecondClasses(cls, buf, off, len, start, n)[k];
            if off <= k < off + n then c == HostFieldOf(HostWalk(buf[off..], start, k - off + 1))
            else c == None || c == cls[k]
  {
    hide HostWalk, HostFieldOf;
  }

  lemma {:induction false} SecondSpans(cls: Classes, buf: seq<Byte>, off: nat, len: nat, start: HostState,
      data: Fields, n: nat)
    requires n <= len && off + len <= |buf| == |cls| && HOST in data && (start == UserinfoStart || start == HostStart)
    requires Undivided(cls, data - {HOST}, off, len)
    ensures var x := SecondPass(buf, off, start, data, n);
            HostLengthOk(x) && Spanned(SecondClasses(cls, buf, off, len, start, n), Trimmed(x.data))
  {
    hide Spanned, SecondStep, HostWalk, Trimmed, HostLengthOk, HostFieldOf, SecondClasses, Undivided;
    if n == 0 {
      SecondStart(cls, buf, off, len, start, data);
    } else {
      SecondSpans(cls, buf, off, len, start, data, n - 1);
      var x, y := SecondPass(buf, off, start, data, n - 1), SecondPass(buf, off, start, data, n);
      var p := off + n - 1;
      assert y == SecondStep(x, buf[p], p);
      SecondExtends(x, buf[p], p);
      hide SecondPass;
      UndividedKnown(cls, data - {HOST}, off, len);
      NoHostYet(start);
      SecondByte(cls, buf, off, len, start, Trimmed(x.data), n, Trimmed(y.data), HostFieldOf(x.s));
    }
  }

  lemma NoHostYet(start: HostState)
    requires start == UserinfoStart || start == HostStart
    ensures HostFieldOf(start) == None
  {
  }

  lemma UndividedKnown(cls: Classes, data: Fields, off: nat, len: nat)
    requires Undivided(cls, data, off, len)
    ensures forall k :: 0 <= k < |cls| && cls[k].Some? ==> !OfAuthority(cls[k].value)
  {
  }

  lemma SecondStart(cls: Classes, buf: seq<Byte>, off: nat, len: nat, start: HostState, data: Fields)
    requires off + len <= |buf| == |cls| && HOST in data && (start == UserinfoStart || start == HostStart)
    requires Undivided(cls, data - {HOST}, off, len)
    ensures var x := SecondPass(buf, off, start, data, 0);
            HostLengthOk(x) && Spanned(SecondClasses(cls, buf, off, len, start, 0), Trimmed(x.data))
  {
    hide Spanned;
    assert Trimmed(data[HOST := Span(off, 0)]) == data - {HOST};
    assert SecondClasses(cls, buf, off, len, start, 0) == cls;
  }

  /** One more byte of the authority in its span. */
  lemma SecondByte(cls: Classes, buf: seq<Byte>, off: nat, len: nat, start: HostState, d: Fields, n: nat,
      d': Fields, was: Option<Field>)
    requires 0 < n <= len && off + len <= |buf| == |cls| && HostFieldOf(start) == None
    requires Spanned(SecondClasses(cls, buf, off, len, start, n - 1), d)
    requires forall k :: 0 <= k < |cls| && cls[k].Some? ==> !OfAuthority(cls[k].value)
    requires was == HostFieldOf(HostWalk(buf[off..], start, n - 1))
    requires var f := HostFieldOf(HostWalk(buf[off..], start, n));
             if f == None then d' == d
             else (was == f ==> f.value in d) && d' == Extended(d, f.value, was != f, off + n - 1)
    ensures Spanned(SecondClasses(cls, buf, off, len, start, n), d')
  {
    hide Spanned, HostWalk, HostFieldOf, SecondClasses, Extended;
    var before := SecondClasses(cls, buf, off, len, start, n - 1);
    var p := off + n - 1;
    var f := HostFieldOf(HostWalk(buf[off..], start, n));
    SecondClassStep(cls, buf, off, len, start, n);
    if f == None {
      assert before[p := None] == before;
    } else {
      if was == f {
        PreviousByte(cls, buf, off, len, start, n, f.value);
        EndsHere(before, d, p, f.value);
      } else {
        NotSeen(cls, buf, off, len, start, d, n, f.value);
      }
      ClassSet(before, d, p, f.value);
    }
  }
}
