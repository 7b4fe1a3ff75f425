/**
 * `calendar_privacy_poc/host/src/cli.rs`: the capability contract review.
 * Each component's printed WAT text is scanned for `(import "...")` lines
 * naming a `local:calendar-privacy` interface; the system is self-contained
 * when no component has one; the user's answer approves the contract when it
 * is `y` or `yes`, whatever the case and surrounding white space. Running
 * `wasm-tools print`, the console output and the stdin read are left out:
 * the printed text (or its absence when the tool failed) and the answer are
 * parameters.
 */
module ContractReview {
  import opened Wrappers
  import opened Strings

  const ImportPrefix: string := "(import "
  const CapabilityPrefix: string := "local:calendar-privacy"

  /** A component to review: its name, its path and what `wasm-tools print` wrote, if it succeeded. */
  datatype Component = Component(name: string, path: string, printed: Option<string>)

  /** The import name of one WAT line: the text between the first two quotes of an `(import ` line. */
  function ImportName(line: string): (r: Option<string>)
    ensures !StartsWith(Trim(line), ImportPrefix) ==> r.None?
    ensures r.Some? ==> '"' !in r.value
  {
    var t := Trim(line);
    if !StartsWith(t, ImportPrefix) || '"' !in t then None
    else
      var rest := After(t, '"');
      if '"' !in rest then None else Some(Before(rest, '"'))
  }

  /** A found name lies between the first two quotes of the trimmed line. */
  lemma ImportNameShape(line: string)
    requires ImportName(line).Some?
    ensures var t := Trim(line);
      '"' in t && '"' in After(t, '"') &&
      t == Before(t, '"') + ['"'] + ImportName(line).value + ['"'] + After(After(t, '"'), '"')
  {
    hide TrimStart, TrimEnd, StartsWith, IndexOf;
    var t := Trim(line);
    var rest := After(t, '"');
    assert t == Before(t, '"') + ['"'] + rest;
    assert rest == Before(rest, '"') + ['"'] + After(rest, '"');
  }

  /** The import name of a line, when it names a calendar-privacy capability. */
  function Kept(line: string): (r: Option<string>)
    ensures r.Some? ==> ImportName(line) == r && StartsWith(r.value, CapabilityPrefix)
    ensures ImportName(line).Some? && StartsWith(ImportName(line).value, CapabilityPrefix) ==> r.Some?
  {
    var n := ImportName(line);
    if n.Some? && StartsWith(n.value, CapabilityPrefix) then n else None
  }

  /** The set of capability imports named by some of the lines. */
  function ImportsOf(lines: seq<string>): set<string>
  {
    if |lines| == 0 then {}
    else
      var k := Kept(lines[|lines| - 1]);
      ImportsOf(lines[..|lines| - 1]) + (if k.Some? then {k.value} else {})
  }

  /** The lines of the printed text; `lines` also drops a `\r` before each `\n`, which `trim` removes anyway. */
  function Lines(wat: string): seq<string>
  {
    Split(wat, '\n')
  }

  /** A component's capability imports; a failed inspection gives none. */
  function Inspected(c: Component): set<string>
  {
    if c.printed.None? then {} else ImportsOf(Lines(c.printed.value))
  }

  /** The answer that approves the contract: `y` or `yes` once trimmed and lowercased. */
  predicate Approved(answer: string)
  {
    var a := ToLower(Trim(answer));
    a == "y" || a == "yes"
  }

  /** A name is collected exactly when some line names it as a capability import. */
  lemma {:induction false} ImportsOfIff(lines: seq<string>, n: string)
    ensures n in ImportsOf(lines) <==> exists i :: 0 <= i < |lines| && Kept(lines[i]) == Some(n)
  {
    hide Kept, ImportName, Trim, TrimStart, TrimEnd, StartsWith;
    if |lines| > 0 {
      var pre := lines[..|lines| - 1];
      ImportsOfIff(pre, n);
      if exists i :: 0 <= i < |pre| && Kept(pre[i]) == Some(n) {
        var i :| 0 <= i < |pre| && Kept(pre[i]) == Some(n);
        assert lines[i] == pre[i];
      }
      if exists i :: 0 <= i < |lines| && Kept(lines[i]) == Some(n) {
        var i :| 0 <= i < |lines| && Kept(lines[i]) == Some(n);
        if i < |lines| - 1 {
          assert pre[i] == lines[i];
        }
      }
    }
  }

  /** Every collected name starts with the capability prefix. */
  lemma ImportsArePrefixed(lines: seq<string>, n: string)
    requires n in ImportsOf(lines)
    ensures StartsWith(n, CapabilityPrefix)
  {
    ImportsOfIff(lines, n);
    var i :| 0 <= i < |lines| && Kept(lines[i]) == Some(n);
  }

  /** Set semantics: repeating the text adds no name, so duplicates collapse. */
  lemma ImportsOfRepeated(lines: seq<string>)
    ensures ImportsOf(lines + lines) == ImportsOf(lines)
  {
    forall n | true
      ensures n in ImportsOf(lines + lines) <==> n in ImportsOf(lines)
    {
      ImportsOfIff(lines + lines, n);
      ImportsOfIff(lines, n);
      if n in ImportsOf(lines + lines) {
        var i :| 0 <= i < |lines + lines| && Kept((lines + lines)[i]) == Some(n);
        if i >= |lines| {
          assert (lines + lines)[i] == lines[i - |lines|];
        }
      }
      if n in ImportsOf(lines) {
        var i :| 0 <= i < |lines| && Kept(lines[i]) == Some(n);
        assert (lines + lines)[i] == lines[i];
      }
    }
  }

  /** Leading white space is all that `trim_start` drops. */
  lemma {:induction false} TrimStartSpaces(ws: string, x: string)
    requires forall i :: 0 <= i < |ws| ==> IsWhitespace(ws[i])
    requires x == [] || !IsWhitespace(x[0])
    ensures TrimStart(ws + x) == x
  {
    if ws != [] {
      assert (ws + x)[0] == ws[0];
      assert (ws + x)[1..] == ws[1..] + x;
      TrimStartSpaces(ws[1..], x);
    } else {
      assert ws + x == x;
    }
  }

  /** Trailing white space is all that `trim_end` drops. */
  lemma {:induction false} TrimEndSpaces(x: string, ws: string)
    requires forall i :: 0 <= i < |ws| ==> IsWhitespace(ws[i])
    requires x == [] || !IsWhitespace(x[|x| - 1])
    ensures TrimEnd(x + ws) == x
  {
    if ws != [] {
      var w := ws[..|ws| - 1];
      assert (x + ws)[|x + ws| - 1] == ws[|ws| - 1];
      assert (x + ws)[..|x + ws| - 1] == x + w;
      TrimEndSpaces(x, w);
    } else {
      assert x + ws == x;
    }
  }

  /** A string of white space around a word trims to the word. */
  lemma TrimAround(ws1: string, x: string, ws2: string)
    requires forall i :: 0 <= i < |ws1| ==> IsWhitespace(ws1[i])
    requires forall i :: 0 <= i < |ws2| ==> IsWhitespace(ws2[i])
    requires x != [] && !IsWhitespace(x[0]) && !IsWhitespace(x[|x| - 1])
    ensures Trim(ws1 + x + ws2) == x
  {
    TrimStartSpaces(ws1, x + ws2);
    assert ws1 + x + ws2 == ws1 + (x + ws2);
    TrimEndSpaces(x, ws2);
  }

  /** The import name of an indented `(import "name" ...)` line is `name`. */
  lemma ImportNameOf(ws: string, name: string, rest: string)
    requires forall i :: 0 <= i < |ws| ==> IsWhitespace(ws[i])
    requires '"' !in name
    ensures ImportName(ws + "(import \"" + name + "\"" + rest + ")") == Some(name)
  {
    hide TrimStart, TrimEnd, IndexOf;
    var tail := rest + ")";
    var t := ImportPrefix + ['"'] + (name + ['"'] + tail);
    assert ws + "(import \"" + name + "\"" + rest + ")" == ws + t + [];
    PrintableNotWhitespace(t[0]);
    PrintableNotWhitespace(t[|t| - 1]);
    TrimAround(ws, t, []);
    assert t[..|ImportPrefix|] == ImportPrefix;
    BeforeJoin(ImportPrefix, '"', name + ['"'] + tail);
    BeforeJoin(name, '"', tail);
  }

  /** `y`, `yes` and their capitalised forms, surrounded by white space, approve. */
  lemma ApprovedPadded(ws1: string, word: string, ws2: string)
    requires forall i :: 0 <= i < |ws1| ==> IsWhitespace(ws1[i])
    requires forall i :: 0 <= i < |ws2| ==> IsWhitespace(ws2[i])
    requires ToLower(word) == "y" || ToLower(word) == "yes"
    ensures Approved(ws1 + word + ws2)
  {
    PrintableNotWhitespace(word[0]);
    PrintableNotWhitespace(word[|word| - 1]);
    TrimAround(ws1, word, ws2);
  }

  /** The default answer, an empty line, does not approve. */
  lemma BlankLineRefuses()
    ensures !Approved("\n") && !Approved("")
  {
    hide TrimStart, TrimEnd, ToLower;
    TrimStartSpaces("\n", []);
    assert "\n" + [] == "\n";
  }

  /** Neither does `no`. */
  lemma NoRefuses()
    ensures !Approved("no")
  {
    hide TrimStart, TrimEnd, ToLower;
    PrintableNotWhitespace('n');
    PrintableNotWhitespace('o');
    TrimAround([], "no", []);
    assert [] + "no" + [] == "no";
  }

  /** The capability imports of one component, scanned line by line. */
  method InspectImports(c: Component) returns (imports: set<string>)
    ensures imports == Inspected(c)
  {
    hide Trim, TrimStart, TrimEnd, StartsWith, Before, After;
    imports := {};
    if c.printed.None? {
      return;
    }
    var lines := Lines(c.printed.value);
    var i := 0;
    while i < |lines|
      invariant 0 <= i <= |lines|
      invariant imports == ImportsOf(lines[..i])
    {
      assert lines[..i + 1][..i] == lines[..i];
      var trimmed := Trim(lines[i]);
      if StartsWith(trimmed, ImportPrefix) && '"' in trimmed {
        var rest := After(trimmed, '"');
        if '"' in rest {
          var name := Before(rest, '"');
          if StartsWith(name, CapabilityPrefix) {
            imports := imports + {name};
          }
        }
      }
      i := i + 1;
    }
    assert lines[..|lines|] == lines;
  }

  /**
   * `review_contract`: the capability imports of every component, whether
   * none has any, and whether the answer approves. Approval depends on the
   * answer alone, not on the imports found.
   */
  method ReviewContract(components: seq<Component>, answer: string)
    returns (approved: bool, allSafe: bool, capabilities: seq<set<string>>)
    ensures |capabilities| == |components|
    ensures forall i :: 0 <= i < |components| ==> capabilities[i] == Inspected(components[i])
    ensures allSafe <==> forall i :: 0 <= i < |components| ==> Inspected(components[i]) == {}
    ensures approved == Approved(answer)
  {
    allSafe := true;
    capabilities := [];
    var i := 0;
    while i < |components|
      invariant 0 <= i <= |components|
      invariant |capabilities| == i
      invariant forall j :: 0 <= j < i ==> capabilities[j] == Inspected(components[j])
      invariant allSafe <==> forall j :: 0 <= j < i ==> Inspected(components[j]) == {}
    {
      var imports := InspectImports(components[i]);
      if imports != {} {
        allSafe := false;
      }
      capabilities := capabilities + [imports];
      i := i + 1;
    }
    var response := ToLower(Trim(answer));
    approved := response == "y" || response == "yes";
  }
}
