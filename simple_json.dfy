/**
 * `parseSimpleJSON` (EcoVoyage/src/Ecovoyage.java:90-100) and the two
 * `String` operations it rests on, `replaceAll` with a character class and
 * `split`. The parser is naive on purpose: it deletes every brace, double
 * quote and space, cuts the rest at every comma, and keeps the pieces that
 * hold a colon as key and value, cut at the first colon.
 */
module SimpleJson {

  /** The characters of the class `[{}" ]`. */
  predicate Stripped(c: char)
  {
    c == '{' || c == '}' || c == '"' || c == ' '
  }

  /** No character of `s` is one of the stripped ones. */
  predicate Clean(s: string)
  {
    forall k :: 0 <= k < |s| ==> !Stripped(s[k])
  }

  /** `s.replaceAll("[{}\" ]", "")`: the other characters of `s`, in order. */
  function RemoveStripped(s: string): (r: string)
    ensures |r| <= |s| && Clean(r)
  {
    if s == [] then []
    else (if Stripped(s[0]) then [] else [s[0]]) + RemoveStripped(s[1..])
  }

  /** Text that is already clean passes through unchanged. */
  lemma {:induction false} RemoveStrippedClean(s: string)
    requires Clean(s)
    ensures RemoveStripped(s) == s
  {
    if s != [] {
      RemoveStrippedClean(s[1..]);
    }
  }

  /** The position of the first `c` in `s`. */
  function IndexOf(s: string, c: char): (i: nat)
    requires c in s
    ensures i < |s| && s[i] == c && forall k :: 0 <= k < i ==> s[k] != c
  {
    if s[0] == c then 0 else 1 + IndexOf(s[1..], c)
  }

  /** Every piece between occurrences of `sep`, empty ones included (a `split` with a negative limit). */
  function SplitAll(s: string, sep: char): (r: seq<string>)
    ensures |r| >= 1
    decreases |s|
  {
    if sep !in s then [s]
    else
      var i := IndexOf(s, sep);
      [s[..i]] + SplitAll(s[i + 1..], sep)
  }

  /** No piece holds the separator, and a clean text has clean pieces. */
  lemma {:induction false} SplitAllPieces(s: string, sep: char)
    ensures forall p :: p in SplitAll(s, sep) ==> sep !in p
    ensures Clean(s) ==> forall p :: p in SplitAll(s, sep) ==> Clean(p)
    decreases |s|
  {
    if sep in s {
      var i := IndexOf(s, sep);
      SplitAllPieces(s[i + 1..], sep);
      assert forall p :: p in SplitAll(s, sep) ==> p == s[..i] || p in SplitAll(s[i + 1..], sep);
    }
  }

  /** The pieces put back together with the separator between them. */
  function Join(pieces: seq<string>, sep: char): string
    requires |pieces| >= 1
  {
    if |pieces| == 1 then pieces[0] else pieces[0] + [sep] + Join(pieces[1..], sep)
  }

  /** Splitting loses nothing: joining the pieces gives back the text. */
  lemma {:induction false} JoinSplitAll(s: string, sep: char)
    ensures Join(SplitAll(s, sep), sep) == s
    decreases |s|
  {
    if sep in s {
      var i := IndexOf(s, sep);
      var head, rest := s[..i], s[i + 1..];
      JoinSplitAll(rest, sep);
      JoinCons(head, SplitAll(rest, sep), sep);
      assert s == head + [sep] + rest;
    }
  }

  lemma JoinCons(head: string, tail: seq<string>, sep: char)
    requires |tail| >= 1
    ensures Join([head] + tail, sep) == head + [sep] + Join(tail, sep)
  {
    assert ([head] + tail)[1..] == tail;
  }

  function DropTrailingEmpty(pieces: seq<string>): (r: seq<string>)
    ensures |r| <= |pieces| && r == pieces[..|r|]
    ensures r != [] ==> r[|r| - 1] != []
    ensures forall k :: |r| <= k < |pieces| ==> pieces[k] == []
  {
    if pieces != [] && pieces[|pieces| - 1] == [] then DropTrailingEmpty(pieces[..|pieces| - 1]) else pieces
  }

  /**
   * Java's `s.split(",")`: the text itself when it holds no separator;
   * otherwise every piece, with the empty pieces at the end removed.
   */
  function JavaSplit(s: string, sep: char): (r: seq<string>)
    ensures sep !in s ==> r == [s]
  {
    if sep !in s then [s] else DropTrailingEmpty(SplitAll(s, sep))
  }

  /**
   * Java's pieces have the same two properties, and with a separator present
   * they are the cut pieces up to the last non-empty one: only empty pieces
   * at the end are dropped.
   */
  lemma JavaSplitPieces(s: string, sep: char)
    ensures forall p :: p in JavaSplit(s, sep) ==> sep !in p
    ensures Clean(s) ==> forall p :: p in JavaSplit(s, sep) ==> Clean(p)
    ensures sep in s ==> var r, all := JavaSplit(s, sep), SplitAll(s, sep);
      && r == all[..|r|]
      && (r != [] ==> r[|r| - 1] != [])
      && (forall k :: |r| <= k < |all| ==> all[k] == [])
  {
    if sep in s {
      SplitAllPieces(s, sep);
      var all := SplitAll(s, sep);
      var r := DropTrailingEmpty(all);
      assert forall p :: p in r ==> p in all;
    }
  }

  /** `pair.split(":", 2)[0]`: the text before the first colon. */
  function Key(pair: string): (k: string)
    requires ':' in pair
    ensures ':' !in k
  {
    pair[..IndexOf(pair, ':')]
  }

  /** `pair.split(":", 2)[1]`: everything after the first colon, later colons included. */
  function Value(pair: string): (v: string)
    requires ':' in pair
    ensures Key(pair) + ":" + v == pair
  {
    var i := IndexOf(pair, ':');
    assert pair == pair[..i] + [':'] + pair[i + 1..];
    pair[i + 1..]
  }

  /** One turn of the loop: `map.put(kv[0], kv[1])` when the piece holds a colon. */
  function PutPair(m: map<string, string>, pair: string): map<string, string>
  {
    if ':' in pair then m[Key(pair) := Value(pair)] else m
  }

  /** The map the loop has built after the given pieces, in order. */
  function Fill(pairs: seq<string>): map<string, string>
  {
    if pairs == [] then map[] else PutPair(Fill(pairs[..|pairs| - 1]), pairs[|pairs| - 1])
  }

  /** The pieces the loop runs over. */
  function Pieces(json: string): seq<string>
  {
    JavaSplit(RemoveStripped(json), ',')
  }

  function Parsed(json: string): map<string, string>
  {
    Fill(Pieces(json))
  }

  /** `parseSimpleJSON(json)`: a `HashMap` filled by a loop over the comma-separated pieces. */
  method ParseSimpleJson(json: string) returns (m: map<string, string>)
    ensures m == Parsed(json)
  {
    m := map[];
    var pieces := JavaSplit(RemoveStripped(json), ',');
    for i := 0 to |pieces|
      invariant m == Fill(pieces[..i])
    {
      var pair := pieces[i];
      if ':' in pair {
        var kv := [Key(pair), Value(pair)];
        m := m[kv[0] := kv[1]];
      }
      assert pieces[..i + 1][..i] == pieces[..i];
    }
    assert pieces[..|pieces|] == pieces;
  }

  /** Piece `i` holds a colon and names `key`. */
  predicate Defines(pairs: seq<string>, i: int, key: string)
  {
    0 <= i < |pairs| && ':' in pairs[i] && Key(pairs[i]) == key
  }

  /** Piece `i` is the last one that names `key`. */
  predicate LastDefines(pairs: seq<string>, i: int, key: string)
  {
    Defines(pairs, i, key) && forall j :: i < j < |pairs| ==> !Defines(pairs, j, key)
  }

  /** A key is present exactly when some piece with a colon names it. */
  lemma {:induction false} FillKeys(pairs: seq<string>, key: string)
    ensures key in Fill(pairs) <==> exists i :: Defines(pairs, i, key)
  {
    if pairs != [] {
      var init := pairs[..|pairs| - 1];
      FillKeys(init, key);
      assert Fill(pairs) == PutPair(Fill(init), pairs[|pairs| - 1]);
      var last := pairs[|pairs| - 1];
      if ':' in last && Key(last) == key {
        assert Defines(pairs, |pairs| - 1, key);
      } else if key in Fill(init) {
        var i :| Defines(init, i, key);
        assert pairs[i] == init[i];
        assert Defines(pairs, i, key);
      }
      if exists i :: Defines(pairs, i, key) {
        var i :| Defines(pairs, i, key);
        if i < |init| {
          assert init[i] == pairs[i];
          assert Defines(init, i, key);
        } else {
          assert i == |pairs| - 1;
        }
        assert key in Fill(pairs);
      }
    }
  }

  /** A repeated key keeps the value of its last piece: `put` overwrites. */
  lemma {:induction false} FillLastWins(pairs: seq<string>, key: string)
    requires key in Fill(pairs)
    ensures exists i :: LastDefines(pairs, i, key) && Fill(pairs)[key] == Value(pairs[i])
  {
    var n := |pairs| - 1;
    var init, last := pairs[..n], pairs[n];
    assert Fill(pairs) == PutPair(Fill(init), last);
    if ':' in last && Key(last) == key {
      assert Fill(pairs)[key] == Value(pairs[n]);
      assert LastDefines(pairs, n, key);
    } else {
      assert key in Fill(init) && Fill(pairs)[key] == Fill(init)[key];
      FillLastWins(init, key);
      var i :| LastDefines(init, i, key) && Fill(init)[key] == Value(init[i]);
      assert pairs[i] == init[i];
      forall j | i < j < |pairs| ensures !Defines(pairs, j, key) {
        if j < n {
          assert pairs[j] == init[j];
          assert !Defines(init, j, key);
        }
      }
      assert LastDefines(pairs, i, key);
    }
  }

  /** The key and value cut from a piece are parts of it, so they inherit what the piece lacks. */
  lemma KeyValueClean(p: string)
    requires ':' in p && Clean(p) && ',' !in p
    ensures Clean(Key(p)) && Clean(Value(p)) && ',' !in Key(p) && ',' !in Value(p)
  {
    var key, v := Key(p), Value(p);
    assert key + ":" + v == p;
    forall k | 0 <= k < |key| ensures !Stripped(key[k]) && key[k] != ',' {
      assert key[k] == p[k];
    }
    forall k | 0 <= k < |v| ensures !Stripped(v[k]) && v[k] != ',' {
      assert v[k] == p[|key| + 1 + k];
    }
  }

  /** Every key and value of the map is a part of one piece: no stripped character, no comma, and no colon in a key. */
  lemma ParsedClean(json: string, key: string)
    requires key in Parsed(json)
    ensures ':' !in key && ',' !in key && ',' !in Parsed(json)[key]
    ensures Clean(key) && Clean(Parsed(json)[key])
  {
    var pieces := Pieces(json);
    FillLastWins(pieces, key);
    var i :| LastDefines(pieces, i, key) && Fill(pieces)[key] == Value(pieces[i]);
    assert pieces[i] in pieces;
    JavaSplitPieces(RemoveStripped(json), ',');
    KeyValueClean(pieces[i]);
  }

  lemma {:induction false} RemoveStrippedConcat(a: string, b: string)
    ensures RemoveStripped(a + b) == RemoveStripped(a) + RemoveStripped(b)
  {
    if a == [] {
      assert a + b == b;
    } else {
      assert (a + b)[0] == a[0];
      assert (a + b)[1..] == a[1..] + b;
      RemoveStrippedConcat(a[1..], b);
    }
  }

  /**
   * Each character is decided on its own: a brace, double quote or space is
   * deleted, any other character stays where it was.
   */
  lemma RemoveStrippedAt(a: string, c: char, b: string)
    ensures RemoveStripped(a + [c] + b) == RemoveStripped(a) + (if Stripped(c) then [] else [c]) + RemoveStripped(b)
  {
    RemoveStrippedConcat(a + [c], b);
    RemoveStrippedConcat(a, [c]);
    assert [c][1..] == [];
  }

  /** The first `c` in `a + [c] + b`, when `a` has none, is right after `a`. */
  lemma IndexOfAfter(a: string, c: char, b: string)
    requires c !in a
    ensures IndexOf(a + [c] + b, c) == |a|
  {
    var s := a + [c] + b;
    assert s[|a|] == c;
    assert forall k :: 0 <= k < |a| ==> s[k] == a[k];
  }

  /**
   * A list value loses everything after its first comma. The body
   * `{"destinations":"1200,900"}` strips to `destinations:1200,900`, so it
   * parses to the single entry destinations -> 1200; the piece `900` has no
   * colon and is dropped.
   */
  lemma CommaCutsValue(json: string, key: string, first: string, rest: string)
    requires RemoveStripped(json) == key + ":" + first + "," + rest
    requires ',' !in key && ':' !in key && ',' !in first && ',' !in rest && ':' !in rest
    ensures Parsed(json) == map[key := first]
  {
    var pair := key + ":" + first;
    assert pair + "," + rest == key + ":" + first + "," + rest;
    assert pair[|key|] == ':';
    PiecesOfTwo(json, pair, rest);
    IndexOfAfter(key, ':', first);
    assert Key(pair) == key && Value(pair) == first;
    assert [pair][..0] == [];
    assert Fill([pair]) == map[key := first];
    if rest != [] {
      assert [pair, rest][..1] == [pair];
      assert Fill([pair, rest]) == PutPair(Fill([pair]), rest);
    }
  }

  lemma PiecesOfTwo(json: string, pair: string, rest: string)
    requires RemoveStripped(json) == pair + "," + rest
    requires ',' !in pair && ',' !in rest && pair != []
    ensures Pieces(json) == if rest == [] then [pair] else [pair, rest]
  {
    var text := pair + "," + rest;
    IndexOfAfter(pair, ',', rest);
    assert text[|pair|] == ',';
    assert text[..|pair|] == pair && text[|pair| + 1..] == rest;
    assert SplitAll(text, ',') == [pair, rest];
    assert ',' in text;
    assert Pieces(json) == DropTrailingEmpty([pair, rest]);
    if rest == [] {
      assert [pair, rest][..1] == [pair];
      assert DropTrailingEmpty([pair, rest]) == DropTrailingEmpty([pair]);
      assert DropTrailingEmpty([pair]) == [pair];
    }
  }
}
