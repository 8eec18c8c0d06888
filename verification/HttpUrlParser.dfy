/** struct http_parser_url and the two loops that fill it. */
module HttpUrlParsing {
  import opened Options
  import opened HttpChars
  import opened HttpMachine
  import opened UrlWalk
  import opened HttpUrl
  import opened HttpUrlTheorems

  /** The fields that are set are the keys of field_data. */
  class HttpParserUrl {
    var port: nat
    var field_data: Fields

    /** http_parser_url_init. */
    constructor ()
      ensures field_data == map[] && port == 0
    {
      port, field_data := 0, map[];
    }

    /** The byte at p begins the field, or continues it. */
    method Extend(uf: Field, start: bool, p: nat)
      requires !start ==> uf in field_data
      modifies this`field_data
      ensures field_data == Extended(old(field_data), uf, start, p)
    {
      if start {
        field_data := field_data[uf := Span(p, 1)];
      } else {
        field_data := field_data[uf := Span(field_data[uf].off, field_data[uf].len + 1)];
      }
    }

    /** http_parse_host. */
    method ParseHostPart(buf: seq<Byte>, found_at: bool) returns (failed: bool)
      requires HOST in field_data && field_data[HOST].off + field_data[HOST].len <= |buf|
      modifies this`field_data
      ensures failed <==> ParseHost(buf, old(field_data), found_at) == None
      ensures !failed ==> field_data == ParseHost(buf, old(field_data), found_at).value
    {
      hide ParseHostChar, SecondPass;
      ghost var data := field_data;
      var off, len := field_data[HOST].off, field_data[HOST].len;
      field_data := field_data[HOST := Span(off, 0)];
      var s := if found_at then UserinfoStart else HostStart;
      ghost var start := s;
      SecondPassStart(buf, off, start, data);
      for i := 0 to len
        invariant Second(s, field_data) == SecondPass(buf, off, start, data, i)
      {
        var p := off + i;
        SecondPassNext(buf, off, start, data, i);
        var new_s := ParseHostChar(s, buf[p]);
        if new_s == HostDead {
          DeadForGood(buf, off, start, data, i + 1, len);
          return true;
        }
        if new_s == Host || new_s == HostV6 {
          var host := field_data[HOST];
          field_data := field_data[HOST := Span(if s != new_s then p else host.off, host.len + 1)];
        } else if new_s == HostV6ZoneStart || new_s == HostV6Zone {
          field_data := field_data[HOST := Span(field_data[HOST].off, field_data[HOST].len + 1)];
        } else if new_s == HostPort {
          Extend(PORT, s != HostPort, p);
        } else if new_s == Userinfo {
          Extend(USERINFO, s != Userinfo, p);
        }
        s := new_s;
      }
      failed := !(s == Host || s == HostV6End || s == HostPort);
    }

    /** http_parser_parse_url, on a buffer whose offsets fit sixteen bits. */
    method ParseUrlInto(buf: seq<Byte>, is_connect: bool) returns (failed: bool)
      requires |buf| <= MAX_URL
      modifies this
      ensures failed <==> ParseUrl(buf, is_connect) == None
      ensures !failed ==> Some(Parts(field_data, port)) == ParseUrl(buf, is_connect)
    {
      hide FirstPass, ParseHost, DigitsValue;
      port, field_data := 0, map[];
      ghost var start := StartOf(is_connect);
      var dead, found_at := FillFields(buf, is_connect);
      ghost var x := FirstPass(buf, start, |buf|);
      if dead {
        return true;
      }
      if SCHEMA in field_data && HOST !in field_data {
        return true;
      }
      FirstInside(buf, start);
      if HOST in field_data {
        failed := ParseHostPart(buf, found_at);
        if failed {
          return;
        }
      }
      if is_connect && field_data.Keys != {HOST, PORT} {
        return true;
      }
      if PORT in field_data {
        PortInside(buf, start, found_at);
        var v := Strtoul(buf, field_data[PORT].off);
        if v > 0xffff {
          return true;
        }
        port := v;
      }
      failed := false;
    }

    /** The loop over the URL: each byte moves the machine, and the state tells the field. */
    method FillFields(buf: seq<Byte>, is_connect: bool) returns (dead: bool, found_at: bool)
      requires field_data == map[]
      modifies this`field_data
      ensures var x := FirstPass(buf, StartOf(is_connect), |buf|);
              (dead <==> x.s == Dead) && (!dead ==> found_at == x.foundAt && field_data == x.data)
    {
      hide ParseUrlChar, FieldOf, FirstPass, Walk;
      FirstPassStart(buf, StartOf(is_connect));
      var s := if is_connect then ReqServerStart else ReqSpacesBeforeUrl;
      ghost var start := s;
      var old_uf: Option<Field> := None;
      dead, found_at := false, false;
      for p := 0 to |buf|
        invariant First(s, found_at, old_uf, field_data) == FirstPass(buf, start, p) && !dead && s != Dead
      {
        FirstPassNext(buf, start, p);
        s := ParseUrlChar(s, buf[p]);
        if s == Dead {
          DeadUrl(buf, start, p + 1);
          FirstPassState(buf, start);
          return true, found_at;
        }
        var uf := FieldOf(s);
        if uf != None {
          if s == ReqServerWithAt {
            found_at := true;
          }
          Extend(uf.value, uf != old_uf, p);
          old_uf := uf;
        }
      }
    }

    /** The digits from i on. */
    method Strtoul(buf: seq<Byte>, i: nat) returns (v: nat)
      requires i <= |buf|
      ensures v == DigitsValue(buf, i, 0)
    {
      v := 0;
      var k := i;
      while k < |buf| && IsNum(buf[k])
        invariant i <= k <= |buf| && DigitsValue(buf, i, 0) == DigitsValue(buf, k, v)
      {
        v := v * 10 + DigitValue(buf[k]);
        k := k + 1;
      }
    }
  }

  lemma FirstPassStart(buf: seq<Byte>, start: State)
    ensures FirstPass(buf, start, 0) == First(start, false, None, map[])
  {
  }

  lemma FirstPassNext(buf: seq<Byte>, start: State, p: nat)
    requires p < |buf|
    ensures var x := FirstPass(buf, start, p); x.last.Some? ==> x.last.value in x.data
    ensures FirstPass(buf, start, p + 1) == FirstStep(FirstPass(buf, start, p), buf[p], p)
    ensures Walk(buf, start, p + 1) == ParseUrlChar(FirstPass(buf, start, p).s, buf[p])
  {
    hide FirstStep, ParseUrlChar;
  }

  lemma FirstPassState(buf: seq<Byte>, start: State)
    ensures FirstPass(buf, start, |buf|).s == Walk(buf, start, |buf|)
  {
  }

  lemma PortInside(buf: seq<Byte>, start: State, foundAt: bool)
    requires var d := FirstPass(buf, start, |buf|).data; HOST in d ==> d[HOST].off + d[HOST].len <= |buf|
    ensures var d := FirstPass(buf, start, |buf|).data;
            if HOST in d then
              var e := ParseHost(buf, d, foundAt);
              e.Some? && PORT in e.value ==> e.value[PORT].off <= |buf|
            else PORT !in d
  {
    hide FirstPass, ParseHost;
    var d := FirstPass(buf, start, |buf|).data;
    if HOST in d {
      if ParseHost(buf, d, foundAt).Some? && PORT in ParseHost(buf, d, foundAt).value {
        PortRun(buf, start, foundAt);
      }
    } else {
      FirstSpans(buf, start, |buf|);
      NoPort(buf, start, d);
    }
  }

  lemma SecondPassStart(buf: seq<Byte>, off: nat, start: HostState, data: Fields)
    requires off <= |buf| && HOST in data && (start == UserinfoStart || start == HostStart)
    ensures SecondPass(buf, off, start, data, 0) == Second(start, data[HOST := Span(off, 0)])
  {
  }

  lemma SecondPassNext(buf: seq<Byte>, off: nat, start: HostState, data: Fields, i: nat)
    requires off + i < |buf| && HOST in data && (start == UserinfoStart || start == HostStart)
    ensures var x := SecondPass(buf, off, start, data, i);
            && HOST in x.data && (x.s == HostPort ==> PORT in x.data) && (x.s == Userinfo ==> USERINFO in x.data)
            && SecondPass(buf, off, start, data, i + 1) == SecondStep(x, buf[off + i], off + i)
  {
    hide SecondStep;
  }

  /** A dead state never ends a host well. */
  lemma {:induction false} DeadForGood(buf: seq<Byte>, off: nat, start: HostState, data: Fields, m: nat, n: nat)
    requires m <= n && off + n <= |buf| && HOST in data && (start == UserinfoStart || start == HostStart)
    requires SecondPass(buf, off, start, data, m).s == HostDead
    ensures SecondPass(buf, off, start, data, n).s == HostDead
  {
    hide SecondPass, SecondStep;
    if m < n {
      DeadForGood(buf, off, start, data, m, n - 1);
      SecondPassNext(buf, off, start, data, n - 1);
      DeadHostStays(SecondPass(buf, off, start, data, n - 1), buf[off + n - 1], off + n - 1);
    }
  }

  lemma DeadHostStays(x: Second, ch: Byte, p: nat)
    requires HOST in x.data && x.s == HostDead
    ensures SecondStep(x, ch, p).s == HostDead
  {
  }

  lemma {:induction false} DeadUrl(buf: seq<Byte>, start: State, m: nat)
    requires m <= |buf| && Walk(buf, start, m) == Dead
    ensures Walk(buf, start, |buf|) == Dead
    decreases |buf| - m
  {
    if m < |buf| {
      DeadStays(Walk(buf, start, m), buf[m]);
      DeadUrl(buf, start, m + 1);
    }
  }
}
