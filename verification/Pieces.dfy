/** Input that arrives in pieces. */
module Pieces {
  function Flatten<T>(pieces: seq<seq<T>>): seq<T> {
    if pieces == [] then [] else Flatten(pieces[..|pieces| - 1]) + pieces[|pieces| - 1]
  }

  lemma FlattenOneMore<T>(pieces: seq<seq<T>>, i: nat)
    requires i < |pieces|
    ensures Flatten(pieces[..i + 1]) == Flatten(pieces[..i]) + pieces[i]
  {
    assert pieces[..i + 1][..i] == pieces[..i];
  }

  lemma {:induction false} FlattenFirst<T>(pieces: seq<seq<T>>)
    requires pieces != []
    ensures Flatten(pieces) == pieces[0] + Flatten(pieces[1..])
    decreases |pieces|
  {
    var n := |pieces| - 1;
    if n == 0 {
      assert pieces[..0] == [];
    } else {
      FlattenFirst(pieces[..n]);
      assert pieces[..n][1..] == pieces[1..][..n - 1];
      var x, y, z := pieces[0], Flatten(pieces[1..][..n - 1]), pieces[n];
      assert x + y + z == x + (y + z);
    }
  }

  lemma {:induction false} PieceLength<T>(pieces: seq<seq<T>>, x: seq<T>)
    requires x in pieces
    ensures |x| <= |Flatten(pieces)|
    decreases |pieces|
  {
    if x != pieces[|pieces| - 1] {
      PieceLength(pieces[..|pieces| - 1], x);
    }
  }
}
