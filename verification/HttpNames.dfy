/** The header-name matcher recognises exactly the names it is for, in any letter case. */
module HttpNames {
  import opened HttpChars
  import opened HttpMachine
  import opened HttpFraming

  /** What the matcher's state must be after reading the name l, given in lower case. */
  function Recognize(l: seq<Byte>): HeaderState {
    if l == CONNECTION || l == PROXY_CONNECTION then Connection
    else if l == CONTENT_LENGTH then ContentLength
    else if l == TRANSFER_ENCODING then TransferEncoding
    else if l == UPGRADE then Upgrade
    else if l == "c" then C
    else if l == "co" then CO
    else if l == "con" then CON
    else if l <= CONNECTION then MatchingConnection
    else if l <= PROXY_CONNECTION then MatchingProxyConnection
    else if l <= CONTENT_LENGTH then MatchingContentLength
    else if l <= TRANSFER_ENCODING then MatchingTransferEncoding
    else if l <= UPGRADE then MatchingUpgrade
    else General
  }

  /** States in which the matcher still compares against a word, so its index matters. */
  predicate Partial(h: HeaderState) {
    h.C? || h.CO? || h.CON? || h.MatchingConnection? || h.MatchingProxyConnection? ||
    h.MatchingContentLength? || h.MatchingTransferEncoding? || h.MatchingUpgrade?
  }

  lemma PrefixStep(l: seq<Byte>, c: Byte, w: seq<Byte>)
    ensures l + [c] <= w <==> l < w && c == w[|l|]
    ensures l + [c] == w <==> l < w && c == w[|l|] && |w| == |l| + 1
  {
    if l < w && c == w[|l|] {
      assert w[..|l| + 1] == l + [c];
    }
    if l + [c] <= w {
      assert w[..|l|] == l && w[|l|] == c;
    }
  }

  lemma TokenLower(c: Byte, w: Byte)
    requires Token(c) != NUL && ('a' <= w <= 'z' || w == '-')
    ensures Lower(c) == w <==> Token(c) == w
  {
  }

  /** One character of a word: the prefixes and the whole word move on together. */
  lemma WordStep(l: seq<Byte>, c: Byte, w: seq<Byte>)
    requires Token(c) != NUL && Lowercase(w)
    ensures l + [Lower(c)] <= w <==> l < w && Token(c) == w[|l|]
    ensures l + [Lower(c)] == w <==> l < w && Token(c) == w[|l|] && |w| == |l| + 1
  {
    PrefixStep(l, Lower(c), w);
    if l < w {
      TokenLower(c, w[|l|]);
    }
  }

  predicate Steps(l: seq<Byte>, c: Byte, w: seq<Byte>)
  {
    && (l + [Lower(c)] <= w <==> l < w && Token(c) == w[|l|])
    && (l + [Lower(c)] == w <==> l < w && Token(c) == w[|l|] && |w| == |l| + 1)
  }

  predicate Lowercase(w: seq<Byte>) { forall k :: 0 <= k < |w| ==> 'a' <= w[k] <= 'z' || w[k] == '-' }

  lemma WordsAreLowercase()
    ensures Lowercase(CONNECTION) && Lowercase(PROXY_CONNECTION) && Lowercase(CONTENT_LENGTH)
    ensures Lowercase(TRANSFER_ENCODING) && Lowercase(UPGRADE) && Lowercase("co") && Lowercase("con")
  {
  }

  lemma WordsStep(l: seq<Byte>, c: Byte)
    requires Token(c) != NUL
    ensures Steps(l, c, CONNECTION) && Steps(l, c, PROXY_CONNECTION) && Steps(l, c, CONTENT_LENGTH)
    ensures Steps(l, c, TRANSFER_ENCODING) && Steps(l, c, UPGRADE)
    ensures Steps(l, c, "co") && Steps(l, c, "con")
  {
    hide Token, Lower, CONNECTION, PROXY_CONNECTION, CONTENT_LENGTH, TRANSFER_ENCODING, UPGRADE;
    WordsAreLowercase();
    WordStep(l, c, CONNECTION);
    WordStep(l, c, PROXY_CONNECTION);
    WordStep(l, c, CONTENT_LENGTH);
    WordStep(l, c, TRANSFER_ENCODING);
    WordStep(l, c, UPGRADE);
    WordStep(l, c, "co");
    WordStep(l, c, "con");
  }

  lemma TokenIsNotSpace(c: Byte)
    ensures Token(c) != ' '
  {
  }

  lemma WordFacts()
    ensures |CONNECTION| == 10 && CONNECTION[3] == 'n' && |CONTENT_LENGTH| == 14 && CONTENT_LENGTH[3] == 't'
    ensures "con" < CONNECTION && "con" < CONTENT_LENGTH
    ensures |PROXY_CONNECTION| > 4 && |TRANSFER_ENCODING| > 4 && |UPGRADE| > 4
  {
  }

  lemma NameStepRecognizes(l: seq<Byte>, i: nat, c: Byte)
    requires l != [] && Token(c) != NUL
    requires Partial(Recognize(l)) ==> i == |l| - 1
    ensures var r := NameStep(Recognize(l), i, Token(c));
      r.0 == Recognize(l + [Lower(c)]) && (Partial(r.0) ==> r.1 == |l|)
  {
    hide Token, Lower, CONNECTION, PROXY_CONNECTION, CONTENT_LENGTH, TRANSFER_ENCODING, UPGRADE;
    WordsStep(l, c);
    WordFacts();
    TokenIsNotSpace(c);
    Apart(l);
    Apart(l + [Lower(c)]);
    assert l + [Lower(c)] != "c";
  }

  /** No name of four letters starts two of the words. */
  lemma Apart(l: seq<Byte>)
    requires l != []
    ensures l <= PROXY_CONNECTION ==> l[0] == 'p'
    ensures l <= TRANSFER_ENCODING ==> l[0] == 't'
    ensures l <= UPGRADE ==> l[0] == 'u'
    ensures l <= CONNECTION || l <= CONTENT_LENGTH ==> l[0] == 'c'
    ensures l <= CONNECTION && |l| > 3 ==> l[3] == 'n'
    ensures l <= CONTENT_LENGTH && |l| > 3 ==> l[3] == 't'
    ensures l <= CONNECTION && |l| <= 3 ==> l == "c" || l == "co" || l == "con"
    ensures l <= CONTENT_LENGTH && |l| <= 3 ==> l == "c" || l == "co" || l == "con"
  {
    assert CONNECTION[..1] == "c" && CONNECTION[..2] == "co" && CONNECTION[..3] == "con";
    assert CONTENT_LENGTH[..1] == "c" && CONTENT_LENGTH[..2] == "co" && CONTENT_LENGTH[..3] == "con";
    if l <= CONNECTION { assert l == CONNECTION[..|l|]; }
    if l <= CONTENT_LENGTH { assert l == CONTENT_LENGTH[..|l|]; }
  }
}
