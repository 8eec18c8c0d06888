/** The two passes over a URL as walks of small machines, and the fields that their states belong to. */
module UrlWalk {
  import opened Options
  import opened HttpChars
  import opened HttpMachine

  datatype Field = SCHEMA | USERINFO | HOST | PORT | PATH | QUERY | FRAGMENT

  /** The fields in the order in which they stand in a URL. */
  function Order(f: Field): nat {
    match f
    case SCHEMA => 0 case USERINFO => 1 case HOST => 2 case PORT => 3 case PATH => 4 case QUERY => 5 case FRAGMENT => 6
  }

  datatype HostState =
    | HostDead
    | UserinfoStart | Userinfo
    | HostStart | HostV6Start | Host | HostV6 | HostV6End | HostV6ZoneStart | HostV6Zone
    | HostPortStart | HostPort

  /** http_parse_host_char. */
  function ParseHostChar(s: HostState, ch: Byte): HostState {
    match s
    case UserinfoStart => UserinfoChar(ch)
    case Userinfo => UserinfoChar(ch)
    case HostStart => if ch == '[' then HostV6Start else if IsHostChar(ch) then Host else HostDead
    case Host => if IsHostChar(ch) then Host else AfterHost(ch)
    case HostV6End => AfterHost(ch)
    case HostV6 => if ch == ']' then HostV6End else if V6Char(ch) then HostV6
        else if ch == '%' then HostV6ZoneStart else HostDead
    case HostV6Start => if V6Char(ch) then HostV6 else HostDead
    case HostV6Zone => if ch == ']' then HostV6End else ZoneChar(ch)
    case HostV6ZoneStart => ZoneChar(ch)
    case HostPort => if IsNum(ch) then HostPort else HostDead
    case HostPortStart => if IsNum(ch) then HostPort else HostDead
    case HostDead => HostDead
  }

  function UserinfoChar(ch: Byte): HostState {
    if ch == '@' then HostStart else if IsUserinfoChar(ch) then Userinfo else HostDead
  }

  function AfterHost(ch: Byte): HostState { if ch == ':' then HostPortStart else HostDead }

  predicate V6Char(ch: Byte) { IsHex(ch) || ch == ':' || ch == '.' }

  function ZoneChar(ch: Byte): HostState {
    if IsAlphaNum(ch) || ch in "%.-_~" then HostV6Zone else HostDead
  }

  /** The state after n bytes. */
  function Walk(buf: seq<Byte>, start: State, n: nat): State
    requires n <= |buf|
  {
    if n == 0 then start else ParseUrlChar(Walk(buf, start, n - 1), buf[n - 1])
  }

  function HostWalk(buf: seq<Byte>, start: HostState, n: nat): HostState
    requires n <= |buf|
  {
    if n == 0 then start else ParseHostChar(HostWalk(buf, start, n - 1), buf[n - 1])
  }

  /** The field that a byte belongs to when it leads to this state; delimiters belong to none. */
  function FieldOf(s: State): Option<Field> {
    if s.ReqSchema? then Some(SCHEMA)
    else if s.ReqServer? || s.ReqServerWithAt? then Some(HOST)
    else if s.ReqPath? then Some(PATH)
    else if s.ReqQueryString? then Some(QUERY)
    else if s.ReqFragment? then Some(FRAGMENT)
    else None
  }

  function HostFieldOf(s: HostState): Option<Field> {
    if s.Userinfo? then Some(USERINFO)
    else if s.Host? || s.HostV6? || s.HostV6ZoneStart? || s.HostV6Zone? then Some(HOST)
    else if s.HostPort? then Some(PORT)
    else None
  }

  /** How far a URL state is; the first pass never goes back. */
  function Stage(s: State): nat {
    if s.ReqSpacesBeforeUrl? then 0
    else if s.ReqSchema? then 1
    else if s.ReqSchemaSlash? then 2
    else if s.ReqSchemaSlashSlash? then 3
    else if s.ReqServerStart? then 4
    else if s.ReqServer? || s.ReqServerWithAt? then 5
    else if s.ReqPath? then 6
    else if s.ReqQueryStringStart? then 7
    else if s.ReqQueryString? then 8
    else if s.ReqFragmentStart? then 9
    else if s.ReqFragment? then 10
    else 11
  }

  function HostStage(s: HostState): nat {
    match s
    case UserinfoStart => 0 case Userinfo => 1
    case HostStart => 2 case HostV6Start => 3
    case Host => 4 case HostV6 => 4 case HostV6ZoneStart => 4 case HostV6Zone => 4
    case HostV6End => 5 case HostPortStart => 6 case HostPort => 7
    case HostDead => 8
  }

  predicate Delimiter(c: Byte) { c in ":/?#@[]" }

  lemma UrlStep(s: State, ch: Byte)
    ensures var t := ParseUrlChar(s, ch);
            && Stage(t) >= Stage(s)
            && (Stage(s) < 11 || s == Dead ==> (Stage(t) == 11 <==> t == Dead))
            && (t != Dead && FieldOf(t) == None ==> Delimiter(ch))
            && (FieldOf(t) != None ==> FieldChar(FieldOf(t).value, ch))
  {
    UrlStage(s, ch);
    UrlDelimiter(s, ch);
    UrlFieldChar(s, ch);
    hide ParseUrlChar, Stage, FieldOf, FieldChar, Delimiter;
  }

  lemma UrlStage(s: State, ch: Byte)
    ensures var t := ParseUrlChar(s, ch);
            Stage(t) >= Stage(s) && (Stage(s) < 11 || s == Dead ==> (Stage(t) == 11 <==> t == Dead))
  {
    hide IsUserinfoChar, IsUrlChar, IsAlpha, ParseServerChar, ParseQueryChar, Stage;
    ServerStage(ch);
    QueryStage(ch);
    Stages(s);
  }

  lemma Stages(s: State)
    ensures Stage(ReqSpacesBeforeUrl) == 0 && Stage(ReqSchema) == 1 && Stage(ReqSchemaSlash) == 2 &&
        Stage(ReqSchemaSlashSlash) == 3
    ensures Stage(ReqServerStart) == 4 && Stage(ReqServer) == 5 && Stage(ReqServerWithAt) == 5 && Stage(ReqPath) == 6
    ensures Stage(ReqQueryStringStart) == 7 && Stage(ReqQueryString) == 8 && Stage(ReqFragmentStart) == 9 &&
        Stage(ReqFragment) == 10
    ensures Stage(Dead) == 11 && Stage(s) <= 11
  {
  }

  lemma ServerStage(ch: Byte)
    ensures var t := ParseServerChar(ch); 5 <= Stage(t) && (Stage(t) == 11 <==> t == Dead)
  {
    hide IsUserinfoChar;
  }

  lemma QueryStage(ch: Byte)
    ensures var t := ParseQueryChar(ch); 8 <= Stage(t) && (Stage(t) == 11 <==> t == Dead)
  {
    hide IsUrlChar;
  }

  lemma UrlDelimiter(s: State, ch: Byte)
    ensures var t := ParseUrlChar(s, ch);
            t != Dead && FieldOf(t) == None ==> Delimiter(ch)
  {
    hide IsUserinfoChar, IsUrlChar, IsAlpha;
  }

  lemma UrlFieldChar(s: State, ch: Byte)
    ensures var t := ParseUrlChar(s, ch);
            FieldOf(t) != None ==> FieldChar(FieldOf(t).value, ch)
  {
    hide IsUserinfoChar, IsAlpha;
  }

  lemma HostStep(s: HostState, ch: Byte)
    ensures var t := ParseHostChar(s, ch);
            && HostStage(t) >= HostStage(s)
            && (t != HostDead && HostFieldOf(t) == None ==> Delimiter(ch))
            && (HostFieldOf(t) != None ==> HostFieldChar(HostFieldOf(t).value, ch))
            && (HostStage(t) >= 5 && t != HostDead ==> HostStage(s) >= 4)
  {
  }

  /** The bytes that a field of the first pass may hold. The host field still includes the whole authority. */
  predicate FieldChar(f: Field, c: Byte) {
    if f == SCHEMA then IsAlpha(c)
    else if f == HOST then IsUserinfoChar(c) || c in "[]@"
    else if f == PATH then IsUrlChar(c)
    else IsUrlChar(c) || c == '?' || (f == FRAGMENT && c == '#')
  }

  predicate HostFieldChar(f: Field, c: Byte) {
    if f == USERINFO then IsUserinfoChar(c)
    else if f == PORT then IsNum(c)
    else IsAlphaNum(c) || c in ".-:%_~"
  }
}
