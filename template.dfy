/**
 * The template interpolation of `pypes/pypes/src/workflow.rs`: every match of
 * the placeholder regex in a step's input template is replaced by the recorded
 * output it names, and all other text is copied.
 */
module Template {
  import opened Wrappers
  import opened Strings
  import opened ComponentJson

  // ---------------------------------------------------------------------------
  // Template interpolation
  // ---------------------------------------------------------------------------

  /** The characters of a placeholder path, `[a-zA-Z0-9_.]`. */
  predicate IsPathChar(ch: char)
  {
    ('a' <= ch <= 'z') || ('A' <= ch <= 'Z') || ('0' <= ch <= '9') || ch == '_' || ch == '.'
  }

  /** End of the white-space run of `s` that starts at `i`. */
  function WsEnd(s: string, i: nat): (r: nat)
    requires i <= |s|
    ensures i <= r <= |s|
    decreases |s| - i
  {
    if i < |s| && IsWhitespace(s[i]) then WsEnd(s, i + 1) else i
  }

  /** End of the run of path characters of `s` that starts at `i`. */
  function PathEnd(s: string, i: nat): (r: nat)
    requires i <= |s|
    ensures i <= r <= |s|
    decreases |s| - i
  {
    if i < |s| && IsPathChar(s[i]) then PathEnd(s, i + 1) else i
  }

  /** A placeholder match: the captured path and where the whole match ends. */
  datatype Placeholder = Placeholder(path: string, end: nat)

  /**
   * The match of `\{\{\s*([a-zA-Z0-9_.]+)\s*\}\}` starting at position `i`
   * of `s`, if any. Path characters, white space and braces are disjoint, so at
   * a given start the greedy match is the only one.
   */
  function MatchFrom(s: string, i: nat): (r: Option<Placeholder>)
    requires i <= |s|
    ensures r.Some? ==> i + 4 < r.value.end <= |s| && s[i] == '{'
  {
    if i + 2 > |s| || s[i] != '{' || s[i + 1] != '{' then None
    else
      var a := WsEnd(s, i + 2);
      var b := PathEnd(s, a);
      if b == a then None
      else
        var e := WsEnd(s, b);
        if e + 2 <= |s| && s[e] == '}' && s[e + 1] == '}' then Some(Placeholder(s[a..b], e + 2))
        else None
  }

  /**
   * What a placeholder path stands for: `id.output` of a recorded step, else
   * `UNRESOLVED(path)`. The path is read with `Before` and `After`; lemma
   * `OutputPathSplit` shows this is the `split('.')` into exactly two parts
   * with `output` second.
   */
  function Resolve(path: string, outputs: map<string, Json>, text: Json -> string): string
  {
    if '.' in path && After(path, '.') == "output" && Before(path, '.') in outputs then
      var val := outputs[Before(path, '.')];
      if val.JString? then val.s else text(val)
    else "UNRESOLVED(" + path + ")"
  }

  /** `path.split('.')` has exactly two parts, the second `output`, exactly when the text after the first `.` is `output`. */
  lemma OutputPathSplit(path: string)
    ensures var parts := Split(path, '.');
      (|parts| == 2 && parts[1] == "output") <==> ('.' in path && After(path, '.') == "output")
    ensures |Split(path, '.')| == 2 ==> Split(path, '.')[0] == Before(path, '.')
  {
    hide Split, IndexOf;
    var parts := Split(path, '.');
    if '.' in path {
      var head, tail := Before(path, '.'), After(path, '.');
      SplitJoin(head, '.', tail);
      assert parts == [head] + Split(tail, '.');
      if tail == "output" {
        NoDotInOutput();
      }
      if |parts| == 2 {
        assert |Split(tail, '.')| == 1;
        assert Split(tail, '.')[0] == Before(tail, '.') == tail;
      }
    }
  }

  lemma NoDotInOutput()
    ensures '.' !in "output"
  {
  }

  /** The template split at the regex matches: characters copied, and placeholder paths. */
  datatype Piece = Char(c: char) | Hole(path: string)

  /** The piece that starts at position `i`, and where the next one starts. */
  function Next(s: string, i: nat): (r: (Piece, nat))
    requires i < |s|
    ensures i < r.1 <= |s|
    ensures s[i] != '{' ==> r == (Char(s[i]), i + 1)
  {
    var m := MatchFrom(s, i);
    if m.Some? then (Hole(m.value.path), m.value.end) else (Char(s[i]), i + 1)
  }

  /** The pieces of `s[i..]`, found left to right without overlaps as `replace_all` does. */
  function Pieces(s: string, i: nat): seq<Piece>
    requires i <= |s|
    decreases |s| - i
  {
    if i == |s| then []
    else
      var n := Next(s, i);
      [n.0] + Pieces(s, n.1)
  }

  /** Each piece replaced: a character by itself, a placeholder by what its path stands for. */
  function Render(pieces: seq<Piece>, outputs: map<string, Json>, text: Json -> string): string
    decreases |pieces|
  {
    if pieces == [] then []
    else
      var head := if pieces[0].Char? then [pieces[0].c] else Resolve(pieces[0].path, outputs, text);
      head + Render(pieces[1..], outputs, text)
  }

  /** The input string of a step: its template with every placeholder replaced. */
  function Interpolate(template: string, outputs: map<string, Json>, text: Json -> string): string
  {
    Render(Pieces(template, 0), outputs, text)
  }

  /** The pieces of plain characters. */
  function Chars(x: string): (r: seq<Piece>)
    ensures |r| == |x| && forall k :: 0 <= k < |x| ==> r[k] == Char(x[k])
  {
    seq(|x|, k requires 0 <= k < |x| => Char(x[k]))
  }

  lemma CharsCons(s: string, i: nat, j: nat)
    requires i < j <= |s|
    ensures Chars(s[i..j]) == [Char(s[i])] + Chars(s[i + 1..j])
  {
  }

  /** A stretch without `{` is copied character by character. */
  lemma {:induction false} PiecesLiteral(s: string, i: nat, j: nat)
    requires i <= j <= |s|
    requires forall k :: i <= k < j ==> s[k] != '{'
    ensures Pieces(s, i) == Chars(s[i..j]) + Pieces(s, j)
    decreases j - i
  {
    hide MatchFrom;
    if i < j {
      PiecesLiteral(s, i + 1, j);
      CharsCons(s, i, j);
    }
  }

  lemma {:induction false} RenderAppend(x: seq<Piece>, y: seq<Piece>, outputs: map<string, Json>, text: Json -> string)
    ensures Render(x + y, outputs, text) == Render(x, outputs, text) + Render(y, outputs, text)
    decreases |x|
  {
    if x == [] {
      assert x + y == y;
    } else {
      assert (x + y)[1..] == x[1..] + y;
      RenderAppend(x[1..], y, outputs, text);
    }
  }

  lemma {:induction false} RenderChars(x: string, outputs: map<string, Json>, text: Json -> string)
    ensures Render(Chars(x), outputs, text) == x
    decreases |x|
  {
    if x != [] {
      assert Chars(x)[1..] == Chars(x[1..]);
      RenderChars(x[1..], outputs, text);
    }
  }

  /** A template without `{` is its own interpolation. */
  lemma InterpolateLiteral(template: string, outputs: map<string, Json>, text: Json -> string)
    requires '{' !in template
    ensures Interpolate(template, outputs, text) == template
  {
    hide MatchFrom;
    PiecesLiteral(template, 0, |template|);
    assert template[0..|template|] == template;
    assert Chars(template) + [] == Chars(template);
    RenderChars(template, outputs, text);
  }

  /** The end of a white-space run read off its characters. */
  lemma {:induction false} WsEndOf(s: string, i: nat, j: nat)
    requires i <= j <= |s|
    requires forall k :: i <= k < j ==> IsWhitespace(s[k])
    requires j == |s| || !IsWhitespace(s[j])
    ensures WsEnd(s, i) == j
    decreases j - i
  {
    if i < j {
      WsEndOf(s, i + 1, j);
    }
  }

  /** The end of a run of path characters read off its characters. */
  lemma {:induction false} PathEndOf(s: string, i: nat, j: nat)
    requires i <= j <= |s|
    requires forall k :: i <= k < j ==> IsPathChar(s[k])
    requires j == |s| || !IsPathChar(s[j])
    ensures PathEnd(s, i) == j
    decreases j - i
  {
    if i < j {
      PathEndOf(s, i + 1, j);
    }
  }

  lemma PathCharNotSpace(ch: char)
    ensures IsPathChar(ch) ==> !IsWhitespace(ch)
  {
    if IsPathChar(ch) {
      PrintableNotWhitespace(ch);
    }
  }

  /** `MatchFrom` read off the ends of its runs. */
  lemma MatchFromOf(s: string, i: nat, a: nat, b: nat, e: nat)
    requires i + 2 <= a < b <= e && e + 2 <= |s|
    requires s[i] == '{' && s[i + 1] == '{' && s[e] == '}' && s[e + 1] == '}'
    requires WsEnd(s, i + 2) == a && PathEnd(s, a) == b && WsEnd(s, b) == e
    ensures MatchFrom(s, i) == Some(Placeholder(s[a..b], e + 2))
  {
  }

  /** Every character of `s[i..j]` is white space. */
  predicate SpacesIn(s: string, i: nat, j: nat)
    requires i <= j <= |s|
  {
    forall k :: i <= k < j ==> IsWhitespace(s[k])
  }

  /** Every character of `s[i..j]` is a path character. */
  predicate PathIn(s: string, i: nat, j: nat)
    requires i <= j <= |s|
  {
    forall k :: i <= k < j ==> IsPathChar(s[k])
  }

  /**
   * The shape of a placeholder at position `i`: `{{`, white space up to `a`,
   * a non-empty path up to `b`, white space up to `e`, and `}}`.
   */
  predicate PlaceholderAt(s: string, i: nat, a: nat, b: nat, e: nat)
  {
    i + 2 <= a < b <= e && e + 2 <= |s|
    && s[i] == '{' && s[i + 1] == '{' && s[e] == '}' && s[e + 1] == '}'
    && SpacesIn(s, i + 2, a) && PathIn(s, a, b) && SpacesIn(s, b, e)
  }

  /** The white-space run found from `i` is all white space. */
  lemma {:induction false} WsEndSpaces(s: string, i: nat)
    requires i <= |s|
    ensures SpacesIn(s, i, WsEnd(s, i))
    decreases |s| - i
  {
    if i < |s| && IsWhitespace(s[i]) {
      WsEndSpaces(s, i + 1);
    }
  }

  /** The path run found from `i` is all path characters. */
  lemma {:induction false} PathEndPath(s: string, i: nat)
    requires i <= |s|
    ensures PathIn(s, i, PathEnd(s, i))
    decreases |s| - i
  {
    if i < |s| && IsPathChar(s[i]) {
      PathEndPath(s, i + 1);
    }
  }

  /** Every match is a placeholder, and captures its path and ends after its `}}`. */
  lemma MatchFromSound(s: string, i: nat)
    requires i <= |s| && MatchFrom(s, i).Some?
    ensures exists a: nat, b: nat, e: nat :: PlaceholderAt(s, i, a, b, e) && MatchFrom(s, i).value == Placeholder(s[a..b], e + 2)
  {
    var a := WsEnd(s, i + 2);
    var b := PathEnd(s, a);
    var e := WsEnd(s, b);
    WsEndSpaces(s, i + 2);
    PathEndPath(s, a);
    WsEndSpaces(s, b);
    assert PlaceholderAt(s, i, a, b, e);
  }

  /** The regex matches a placeholder, with any white space inside its braces. */
  lemma MatchFromAt(s: string, i: nat, a: nat, b: nat, e: nat)
    requires PlaceholderAt(s, i, a, b, e)
    ensures MatchFrom(s, i) == Some(Placeholder(s[a..b], e + 2))
  {
    PathCharNotSpace(s[a]);
    WsEndOf(s, i + 2, a);
    if b < e {
      PathCharNotSpace(s[b]);
    }
    PathEndOf(s, a, b);
    PrintableNotWhitespace(s[e]);
    WsEndOf(s, b, e);
    MatchFromOf(s, i, a, b, e);
  }

  lemma {:induction false} WsEndShift(s: string, k: nat, i: nat)
    requires k + i <= |s|
    ensures WsEnd(s, k + i) == k + WsEnd(s[k..], i)
    decreases |s| - k - i
  {
    if k + i < |s| {
      assert s[k + i] == s[k..][i];
      WsEndShift(s, k, i + 1);
    }
  }

  lemma {:induction false} PathEndShift(s: string, k: nat, i: nat)
    requires k + i <= |s|
    ensures PathEnd(s, k + i) == k + PathEnd(s[k..], i)
    decreases |s| - k - i
  {
    if k + i < |s| {
      assert s[k + i] == s[k..][i];
      PathEndShift(s, k, i + 1);
    }
  }

  /** A match depends only on the text from its start on. */
  lemma MatchFromShift(s: string, k: nat, i: nat)
    requires k + i <= |s|
    ensures var m := MatchFrom(s, k + i);
      var n := MatchFrom(s[k..], i);
      (m.Some? <==> n.Some?) && (m.Some? ==> m.value == Placeholder(n.value.path, k + n.value.end))
  {
    hide WsEnd, PathEnd;
    var t := s[k..];
    if i + 2 <= |t| && t[i] == '{' && t[i + 1] == '{' {
      assert s[k + i] == t[i] && s[k + i + 1] == t[i + 1];
      WsEndShift(s, k, i + 2);
      var a := WsEnd(t, i + 2);
      PathEndShift(s, k, a);
      var b := PathEnd(t, a);
      WsEndShift(s, k, b);
      var e := WsEnd(t, b);
      if e + 2 <= |t| {
        assert s[k + e] == t[e] && s[k + e + 1] == t[e + 1];
      }
      assert s[k + a..k + b] == t[a..b] by {
        forall p | a <= p < b ensures t[p] == s[k + p] { }
      }
    } else if k + i + 2 <= |s| {
      assert s[k + i] == t[i] && s[k + i + 1] == t[i + 1];
    }
  }

  lemma NextShift(s: string, k: nat, i: nat)
    requires k + i < |s|
    ensures Next(s, k + i) == (Next(s[k..], i).0, k + Next(s[k..], i).1)
  {
    assert s[k + i] == s[k..][i];
    MatchFromShift(s, k, i);
  }

  /** The pieces from a position depend only on the text from there on. */
  lemma {:induction false} PiecesShift(s: string, k: nat, i: nat)
    requires k + i <= |s|
    ensures Pieces(s, k + i) == Pieces(s[k..], i)
    decreases |s| - k - i
  {
    hide MatchFrom;
    if k + i < |s| {
      NextShift(s, k, i);
      PiecesShift(s, k, Next(s[k..], i).1);
    }
  }

  /** A placeholder is one piece, and scanning goes on after it. */
  lemma PiecesPlaceholder(s: string, i: nat, a: nat, b: nat, e: nat)
    requires PlaceholderAt(s, i, a, b, e)
    ensures Pieces(s, i) == [Hole(s[a..b])] + Pieces(s, e + 2)
  {
    hide MatchFrom;
    MatchFromAt(s, i, a, b, e);
    PiecesHole(s, i);
  }

  /** Where a placeholder matches, it is one piece. */
  lemma PiecesHole(s: string, i: nat)
    requires i < |s| && MatchFrom(s, i).Some?
    ensures Pieces(s, i) == [Hole(MatchFrom(s, i).value.path)] + Pieces(s, MatchFrom(s, i).value.end)
  {
  }

  /** The text `{{` ws1 path ws2 `}}` after `a` has the shape of a placeholder, with `b` after it. */
  lemma PlaceholderText(s: string, a: string, ws1: string, path: string, ws2: string, b: string)
    requires s == a + ("{{" + (ws1 + (path + (ws2 + ("}}" + b)))))
    requires forall j :: 0 <= j < |ws1| ==> IsWhitespace(ws1[j])
    requires forall j :: 0 <= j < |ws2| ==> IsWhitespace(ws2[j])
    requires path != [] && forall j :: 0 <= j < |path| ==> IsPathChar(path[j])
    ensures PlaceholderAt(s, |a|, |a| + 2 + |ws1|, |a| + 2 + |ws1| + |path|, |a| + 2 + |ws1| + |path| + |ws2|)
    ensures s[|a| + 2 + |ws1|..|a| + 2 + |ws1| + |path|] == path
    ensures s[|a| + 2 + |ws1| + |path| + |ws2| + 2..] == b
    ensures s[..|a|] == a
  {
    var i := |a|;
    var x := i + 2 + |ws1|;
    var y := x + |path|;
    var e := y + |ws2|;
    forall k | i + 2 <= k < x ensures IsWhitespace(s[k]) { assert s[k] == ws1[k - i - 2]; }
    forall k | x <= k < y ensures IsPathChar(s[k]) { assert s[k] == path[k - x]; }
    forall k | y <= k < e ensures IsWhitespace(s[k]) { assert s[k] == ws2[k - y]; }
    assert s[x..y] == path;
    assert s[e + 2..] == b;
    assert s[..i] == a;
  }

  /** The pieces of a text with no `{` before a placeholder at position `i`. */
  lemma PiecesOneAt(s: string, i: nat, a: nat, b: nat, e: nat)
    requires PlaceholderAt(s, i, a, b, e)
    requires forall k :: 0 <= k < i ==> s[k] != '{'
    ensures Pieces(s, 0) == Chars(s[..i]) + ([Hole(s[a..b])] + Pieces(s[e + 2..], 0))
  {
    hide MatchFrom;
    PiecesLiteral(s, 0, i);
    PiecesPlaceholder(s, i, a, b, e);
    PiecesShift(s, e + 2, 0);
  }

  /**
   * Interpolating text with no `{` before a placeholder at position `i`: the
   * text is copied, the placeholder replaced by what its path stands for, and
   * the rest interpolated on its own.
   */
  lemma InterpolateOne(s: string, i: nat, a: nat, b: nat, e: nat, outputs: map<string, Json>, text: Json -> string)
    requires PlaceholderAt(s, i, a, b, e)
    requires forall k :: 0 <= k < i ==> s[k] != '{'
    ensures Interpolate(s, outputs, text)
            == s[..i] + (Resolve(s[a..b], outputs, text) + Interpolate(s[e + 2..], outputs, text))
  {
    hide MatchFrom;
    PiecesOneAt(s, i, a, b, e);
    var tail := Pieces(s[e + 2..], 0);
    RenderAppend(Chars(s[..i]), [Hole(s[a..b])] + tail, outputs, text);
    RenderAppend([Hole(s[a..b])], tail, outputs, text);
    RenderChars(s[..i], outputs, text);
    assert Render([Hole(s[a..b])], outputs, text) == Resolve(s[a..b], outputs, text) + Render([], outputs, text);
  }

  /** `{{ id.output }}` of a recorded step: the raw text of a JSON string, otherwise the JSON text. */
  lemma ResolveOutput(id: string, outputs: map<string, Json>, text: Json -> string)
    requires '.' !in id && id in outputs
    ensures Resolve(id + ".output", outputs, text)
            == if outputs[id].JString? then outputs[id].s else text(outputs[id])
  {
    assert id + ".output" == id + ['.'] + "output";
    BeforeJoin(id, '.', "output");
  }

  /** `{{ id.output }}` of a step with no recorded output is left unresolved. */
  lemma ResolveUnrecorded(id: string, outputs: map<string, Json>, text: Json -> string)
    requires '.' !in id && id !in outputs
    ensures Resolve(id + ".output", outputs, text) == "UNRESOLVED(" + id + ".output)"
  {
    assert id + ".output" == id + ['.'] + "output";
    BeforeJoin(id, '.', "output");
  }

  /**
   * A path that does not split into two parts, whose second part is not
   * `output`, or whose step has no recorded output, is left unresolved.
   */
  lemma ResolveOtherPath(path: string, outputs: map<string, Json>, text: Json -> string)
    requires var parts := Split(path, '.'); !(|parts| == 2 && parts[1] == "output" && parts[0] in outputs)
    ensures Resolve(path, outputs, text) == "UNRESOLVED(" + path + ")"
  {
    OutputPathSplit(path);
  }
}
