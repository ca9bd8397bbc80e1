/**
 Which materials the text behind a fingerprint stands for alone. The parts are joined by bars
 without escaping, so a text is taken apart in one way only if no part contains a bar and there is
 a single store path.
 */
module Payloads {
  import opened Replay
  import opened Text

  // ---------------------------------------------------------------- pieces of a joined text

  /** How many pieces the parts fall into. */
  function Pieces(parts: seq<string>, sep: char): nat {
    if parts == [] then 0 else |Split(parts[0], sep)| + Pieces(parts[1..], sep)
  }

  lemma {:induction false} PiecesOfJoin(parts: seq<string>, sep: char)
    requires parts != []
    ensures |Split(Join(parts, sep), sep)| == Pieces(parts, sep)
  {
    if |parts| > 1 {
      var rest := Join(parts[1..], sep);
      PiecesOfJoin(parts[1..], sep);
      SplitCounts(parts[0], [sep] + rest, sep);
      SplitCounts([sep], rest, sep);
      assert Split([sep], sep) == ["", ""] by {
        assert [sep][1..] == "";
      }
      assert parts[0] + ([sep] + rest) == parts[0] + [sep] + rest;
    }
  }

  /** At least as many pieces as parts, and exactly as many if no part contains the separator. */
  lemma {:induction false} PiecesAtLeast(parts: seq<string>, sep: char)
    ensures Pieces(parts, sep) >= |parts|
    ensures Pieces(parts, sep) == |parts| <==> AllFree(parts, sep)
  {
    if parts != [] {
      PiecesAtLeast(parts[1..], sep);
      SplitCounts(parts[0], "", sep);
      assert AllFree(parts, sep) <==> Free(parts[0], sep) && AllFree(parts[1..], sep) by {
        assert parts == [parts[0]] + parts[1..];
      }
    }
  }

  // ---------------------------------------------------------------- moving a separator

  lemma {:induction false} JoinNeighbours(
    front: seq<string>, a: string, b: string, a': string, b': string, back: seq<string>, sep: char)
    requires a + [sep] + b == a' + [sep] + b'
    ensures Join(front + [a, b] + back, sep) == Join(front + [a', b'] + back, sep)
  {
    var s, t := front + [a, b] + back, front + [a', b'] + back;
    if front != [] {
      JoinNeighbours(front[1..], a, b, a', b', back, sep);
      assert s[1..] == front[1..] + [a, b] + back && t[1..] == front[1..] + [a', b'] + back;
    } else if back == [] {
      assert s == [a] + [b] && t == [a'] + [b'];
      JoinAppend([a], [b], sep);
      JoinAppend([a'], [b'], sep);
    } else {
      assert s == [a, b] + back && t == [a', b'] + back && [a, b] == [a] + [b] && [a', b'] == [a'] + [b'];
      JoinAppend([a, b], back, sep);
      JoinAppend([a', b'], back, sep);
      JoinAppend([a], [b], sep);
      JoinAppend([a'], [b'], sep);
    }
  }

  /** A separator inside a part can be moved to a neighbour without changing the joined text. */
  lemma MoveSeparator(parts: seq<string>, i: nat, sep: char) returns (other: seq<string>)
    requires |parts| >= 2 && i < |parts| && !Free(parts[i], sep)
    ensures |other| == |parts| && other != parts && Join(other, sep) == Join(parts, sep)
  {
    var k :| 0 <= k < |parts[i]| && parts[i][k] == sep;
    var x, y := parts[i][..k], parts[i][k + 1..];
    assert parts[i] == x + [sep] + y;
    if i + 1 < |parts| {
      var z := parts[i + 1];
      var front, back := parts[..i], parts[i + 2..];
      other := front + [x, y + [sep] + z] + back;
      assert parts == front + [parts[i], z] + back;
      assert (x + [sep] + y) + [sep] + z == x + [sep] + (y + [sep] + z);
      JoinNeighbours(front, parts[i], z, x, y + [sep] + z, back, sep);
      assert other[i] == x && |x| < |parts[i]|;
    } else {
      var z := parts[i - 1];
      var front := parts[..i - 1];
      other := front + [z + [sep] + x, y] + [];
      assert parts == front + [z, parts[i]] + [];
      assert z + [sep] + (x + [sep] + y) == (z + [sep] + x) + [sep] + y;
      JoinNeighbours(front, z, parts[i], z + [sep] + x, y, [], sep);
      assert other[i] == y && |y| < |parts[i]|;
    }
  }

  // ---------------------------------------------------------------- materials

  /** The eleven parts of a payload, the store paths joined into one. */
  function Parts(m: Material, chain: string): (r: seq<string>)
    ensures |r| == 11
  {
    FrontParts(m) + [Join(m.canonicalStorePaths, '|')] + BackParts(m, chain)
  }

  /** A material with the given parts, and a single store path. */
  function MaterialOf(parts: seq<string>): Material
    requires |parts| == 11
  {
    Material(parts[0], parts[1], [parts[2]], parts[3], parts[4], parts[5], parts[6], parts[7], parts[8], parts[9])
  }

  lemma PartsOfMaterial(parts: seq<string>)
    requires |parts| == 11
    ensures Parts(MaterialOf(parts), parts[10]) == parts && Payload(MaterialOf(parts), parts[10]) == Join(parts, '|')
  {
    assert Join([parts[2]], '|') == parts[2];
  }

  lemma SameMaterialSameParts(m: Material, chain: string, n: Material)
    requires SameMaterial(m, n)
    ensures Parts(m, chain) == Parts(n, chain)
  {
  }

  /** No other material and output digest have the same payload. */
  ghost predicate Unmistakable(m: Material, chain: string) {
    forall n, c :: Payload(n, c) == Payload(m, chain) ==> SameMaterial(m, n) && c == chain
  }

  /** No bar in any part, and at most one store path. */
  ghost predicate Plain(m: Material, chain: string) {
    BarFree(m, chain) && |Padded(m.canonicalStorePaths)| == 1
  }

  lemma FreeParts(m: Material, chain: string)
    ensures AllFree(FrontParts(m) + Padded(m.canonicalStorePaths) + BackParts(m, chain), '|') <==> BarFree(m, chain)
  {
    var front, paths, back := FrontParts(m), Padded(m.canonicalStorePaths), BackParts(m, chain);
    var all := front + paths + back;
    if AllFree(all, '|') {
      assert forall i :: 0 <= i < |front| ==> all[i] == front[i];
      assert forall i :: 0 <= i < |paths| ==> all[|front| + i] == paths[i];
      assert forall i :: 0 <= i < |back| ==> all[|front| + |paths| + i] == back[i];
    }
  }

  /** A payload that falls into eleven pieces comes from plain materials only. */
  lemma ElevenPieces(m: Material, chain: string)
    ensures |Split(Payload(m, chain), '|')| >= 10 + |Padded(m.canonicalStorePaths)|
    ensures |Split(Payload(m, chain), '|')| == 11 <==> Plain(m, chain)
  {
    var parts := FrontParts(m) + Padded(m.canonicalStorePaths) + BackParts(m, chain);
    PayloadParts(m, chain);
    PiecesOfJoin(parts, '|');
    PiecesAtLeast(parts, '|');
    FreeParts(m, chain);
  }

  lemma PlainIsUnmistakable(m: Material, chain: string)
    requires Plain(m, chain)
    ensures Unmistakable(m, chain)
  {
    forall n, c | Payload(n, c) == Payload(m, chain) ensures SameMaterial(m, n) && c == chain {
      ElevenPieces(m, chain);
      ElevenPieces(n, c);
      FingerprintDiscriminates(m, chain, n, c, text => text);
    }
  }

  /** Several paths read like one path with bars in it. */
  lemma PathsAreMistakable(m: Material, chain: string)
    requires |Padded(m.canonicalStorePaths)| > 1
    ensures !Unmistakable(m, chain)
  {
    var n := m.(canonicalStorePaths := [Join(m.canonicalStorePaths, '|')]);
    assert Parts(n, chain) == Parts(m, chain);
    assert Payload(n, chain) == Payload(m, chain);
    assert !SameMaterial(m, n);
  }

  lemma BarredPart(m: Material, chain: string) returns (i: nat)
    requires |Padded(m.canonicalStorePaths)| == 1 && !BarFree(m, chain)
    ensures i < 11 && !Free(Parts(m, chain)[i], '|')
  {
    var parts := Parts(m, chain);
    var paths := Padded(m.canonicalStorePaths);
    assert Join(m.canonicalStorePaths, '|') == Join(paths, '|') == paths[0];
    assert parts == FrontParts(m) + paths + BackParts(m, chain);
    FreeParts(m, chain);
    i :| 0 <= i < |parts| && !Free(parts[i], '|');
  }

  /** A bar in any part can be moved to a neighbouring part. */
  lemma BarsAreMistakable(m: Material, chain: string)
    requires |Padded(m.canonicalStorePaths)| == 1 && !BarFree(m, chain)
    ensures !Unmistakable(m, chain)
  {
    var parts := Parts(m, chain);
    var i := BarredPart(m, chain);
    var other := MoveSeparator(parts, i, '|');
    var n := MaterialOf(other);
    PartsOfMaterial(other);
    assert Payload(n, other[10]) == Payload(m, chain);
    if SameMaterial(m, n) && other[10] == chain {
      SameMaterialSameParts(m, chain, n);
      assert false;
    }
  }

  /**
   The payload, and with it the fingerprint of a digest without collisions, stands for one material
   and one output digest exactly when no part contains a bar and there is at most one store path.
   */
  lemma UnmistakableIffPlain(m: Material, chain: string)
    ensures Unmistakable(m, chain) <==> Plain(m, chain)
  {
    if Plain(m, chain) {
      PlainIsUnmistakable(m, chain);
    } else if |Padded(m.canonicalStorePaths)| > 1 {
      PathsAreMistakable(m, chain);
    } else {
      BarsAreMistakable(m, chain);
    }
  }
}
