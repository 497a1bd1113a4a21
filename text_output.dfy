/** The response body of the OCR endpoint: `format_text_output` in
    src/main.rs. The recognizer yields one optional text line per line
    region; the body is the string form of every present line, in the
    recognizer's order, joined by a newline. */
module TextOutput {
  import opened Wrappers

  /** The separator `format_text_output` passes to `join`. */
  const Newline: char := '\n'

  /** The present entries of `lines`, in order (`iter().flatten()`). */
  function Flatten<T>(lines: seq<Option<T>>): (r: seq<T>)
    ensures |r| <= |lines|
  {
    if |lines| == 0 then []
    else
      var rest := Flatten(lines[1..]);
      match lines[0]
      case None => rest
      case Some(v) => [v] + rest
  }

  /** Flattening keeps exactly the present values: every output element
      comes from a present entry, and every present value is output. */
  lemma {:induction false} FlattenMembers<T>(lines: seq<Option<T>>)
    ensures forall k :: 0 <= k < |Flatten(lines)| ==> Some(Flatten(lines)[k]) in lines
    ensures forall i :: 0 <= i < |lines| && lines[i].Some? ==> lines[i].value in Flatten(lines)
  {
    if |lines| > 0 {
      FlattenMembers(lines[1..]);
      assert lines == [lines[0]] + lines[1..];
    }
  }

  /** The string form of every element (`map(|line| line.to_string())`). */
  function Rendered<T>(xs: seq<T>, render: T -> string): (r: seq<string>)
    ensures |r| == |xs|
    ensures forall i :: 0 <= i < |xs| ==> r[i] == render(xs[i])
  {
    seq(|xs|, i requires 0 <= i < |xs| => render(xs[i]))
  }

  /** Sum of the lengths of `parts`. */
  function TotalLength(parts: seq<string>): (n: nat)
    ensures |parts| >= 1 ==> |parts[0]| <= n
  {
    if |parts| == 0 then 0 else |parts[0]| + TotalLength(parts[1..])
  }

  /** `[String]::join(sep)`: the parts with `sep` between neighbours and
      nowhere else. `JoinLength` and `JoinEnds` state what it produces. */
  function Join(parts: seq<string>, sep: string): (r: string)
    ensures |parts| == 0 ==> r == ""
  {
    if |parts| == 0 then ""
    else if |parts| == 1 then parts[0]
    else parts[0] + sep + Join(parts[1..], sep)
  }

  /** k >= 1 parts joined: their lengths plus k - 1 separators. */
  lemma {:induction false} JoinLength(parts: seq<string>, sep: string)
    requires |parts| >= 1
    ensures |Join(parts, sep)| == TotalLength(parts) + (|parts| - 1) * |sep|
  {
    if |parts| > 1 {
      JoinLength(parts[1..], sep);
    }
  }

  /** k >= 1 parts joined: the result starts with the first part and ends
      with the last, so no separator leads or trails. */
  lemma {:induction false} JoinEnds(parts: seq<string>, sep: string)
    requires |parts| >= 1
    ensures var r, first, last := Join(parts, sep), parts[0], parts[|parts| - 1];
      |first| <= |r| && r[..|first|] == first &&
      |last| <= |r| && r[|r| - |last|..] == last
  {
    if |parts| > 1 {
      var tail := Join(parts[1..], sep);
      JoinEnds(parts[1..], sep);
      assert parts[1..][|parts[1..]| - 1] == parts[|parts| - 1];
      var r := parts[0] + sep + tail;
      assert Join(parts, sep) == r;
      assert r[|r| - |parts[|parts| - 1]|..] == tail[|tail| - |parts[|parts| - 1]|..];
    }
  }

  /** `format_text_output`: `render` is `TextLine::to_string`, which belongs
      to the OCR library and is left uninterpreted. */
  function FormatTextOutput<L>(textLines: seq<Option<L>>, render: L -> string): (r: string)
    ensures |Flatten(textLines)| == 0 ==> r == ""
    ensures |Flatten(textLines)| >= 1 ==>
      |r| == TotalLength(Rendered(Flatten(textLines), render)) + |Flatten(textLines)| - 1
  {
    var parts := Rendered(Flatten(textLines), render);
    if |parts| >= 1 then JoinLength(parts, [Newline]); Join(parts, [Newline])
    else Join(parts, [Newline])
  }

  /** How a client reads the body back: the pieces between newlines.
      `Split` is the reference the joined output is checked against. */
  function Split(s: string): (r: seq<string>)
    ensures |r| >= 1
    ensures forall piece :: piece in r ==> Newline !in piece
    decreases |s|
  {
    if |s| == 0 then [""]
    else
      var rest := Split(s[1..]);
      if s[0] == Newline then [""] + rest
      else [[s[0]] + rest[0]] + rest[1..]
  }

  // ---------------------------------------------------------------------
  // Flattening: absent entries vanish, present ones keep their order.

  /** Flattening distributes over concatenation; together with
      `FlattenUnit` this determines `Flatten` completely. */
  lemma {:induction false} FlattenAppend<T>(a: seq<Option<T>>, b: seq<Option<T>>)
    ensures Flatten(a + b) == Flatten(a) + Flatten(b)
  {
    if |a| == 0 {
      assert a + b == b;
    } else {
      assert (a + b)[1..] == a[1..] + b;
      FlattenAppend(a[1..], b);
    }
  }

  /** A single entry contributes its value when present and nothing when
      absent. */
  lemma FlattenUnit<T>(x: Option<T>)
    ensures Flatten([x]) == if x.Some? then [x.value] else []
  {
    assert [x][1..] == [];
  }

  /** Order preservation: a present entry at index `i` lands in the output
      right after the present entries that precede it. So of two present
      entries, the earlier one comes first in the output. */
  lemma FlattenPosition<T>(lines: seq<Option<T>>, i: nat)
    requires i < |lines| && lines[i].Some?
    ensures |Flatten(lines[..i])| < |Flatten(lines)|
    ensures Flatten(lines)[|Flatten(lines[..i])|] == lines[i].value
  {
    assert lines == lines[..i] + ([lines[i]] + lines[i + 1..]);
    FlattenAppend(lines[..i], [lines[i]] + lines[i + 1..]);
    FlattenAppend([lines[i]], lines[i + 1..]);
    FlattenUnit(lines[i]);
  }

  /** Present entries before `j` stay strictly before it in the output. */
  lemma FlattenPrefixGrows<T>(lines: seq<Option<T>>, i: nat, j: nat)
    requires i < j <= |lines| && lines[i].Some?
    ensures |Flatten(lines[..i])| < |Flatten(lines[..j])|
  {
    assert lines[..j] == lines[..i] + ([lines[i]] + lines[i + 1..j]);
    FlattenAppend(lines[..i], [lines[i]] + lines[i + 1..j]);
    FlattenAppend([lines[i]], lines[i + 1..j]);
    FlattenUnit(lines[i]);
  }

  // ---------------------------------------------------------------------
  // Joining and splitting.

  /** Joining by a newline and splitting at newlines undo each other,
      provided no part holds a newline of its own: the body has exactly one
      row per part, in order, so exactly |parts| - 1 separators. */
  lemma {:induction false} SplitJoin(parts: seq<string>)
    requires |parts| >= 1
    requires forall p :: p in parts ==> Newline !in p
    ensures Split(Join(parts, [Newline])) == parts
  {
    if |parts| == 1 {
      SplitNoNewline(parts[0]);
    } else {
      var tail := Join(parts[1..], [Newline]);
      SplitJoin(parts[1..]);
      assert Join(parts, [Newline]) == parts[0] + ([Newline] + tail);
      SplitPrefix(parts[0], [Newline] + tail);
      assert ([Newline] + tail)[1..] == tail;
      assert Split([Newline] + tail) == [""] + parts[1..];
      assert parts[0] + "" == parts[0];
      assert parts == [parts[0]] + parts[1..];
    }
  }

  /** Every string is the join of its newline-separated pieces. */
  lemma {:induction false} JoinSplit(s: string)
    ensures Join(Split(s), [Newline]) == s
    decreases |s|
  {
    if |s| > 0 {
      var rest := Split(s[1..]);
      JoinSplit(s[1..]);
      if s[0] == Newline {
        assert Split(s) == [""] + rest;
        JoinCons("", rest, [Newline]);
      } else {
        assert Split(s) == [[s[0]] + rest[0]] + rest[1..];
        JoinGlue([s[0]], rest, [Newline]);
      }
      assert s == [s[0]] + s[1..];
    }
  }

  /** Joining a part in front of at least one other adds one separator. */
  lemma JoinCons(a: string, rest: seq<string>, sep: string)
    requires |rest| >= 1
    ensures Join([a] + rest, sep) == a + sep + Join(rest, sep)
  {
    assert ([a] + rest)[1..] == rest;
  }

  /** Text put in front of the first part ends up in front of the join. */
  lemma JoinGlue(c: string, rest: seq<string>, sep: string)
    requires |rest| >= 1
    ensures Join([c + rest[0]] + rest[1..], sep) == c + Join(rest, sep)
  {
    if |rest| > 1 {
      JoinCons(c + rest[0], rest[1..], sep);
      JoinCons(rest[0], rest[1..], sep);
      assert rest == [rest[0]] + rest[1..];
    }
  }

  /** A string without newlines is a single piece. */
  lemma {:induction false} SplitNoNewline(a: string)
    requires Newline !in a
    ensures Split(a) == [a]
    decreases |a|
  {
    if |a| > 0 {
      assert a == [a[0]] + a[1..];
      SplitNoNewline(a[1..]);
    }
  }

  /** A newline-free prefix is glued onto the first piece. */
  lemma {:induction false} SplitPrefix(a: string, t: string)
    requires Newline !in a
    ensures Split(a + t) == [a + Split(t)[0]] + Split(t)[1..]
    decreases |a|
  {
    if |a| > 0 {
      assert a[0] in a;
      assert (a + t)[0] == a[0] && (a + t)[1..] == a[1..] + t;
      SplitPrefix(a[1..], t);
      var rest := Split(a[1..] + t);
      assert Split(a + t) == [[a[0]] + rest[0]] + rest[1..];
      assert [a[0]] + (a[1..] + Split(t)[0]) == a + Split(t)[0];
    } else {
      assert a + t == t;
      assert a + Split(t)[0] == Split(t)[0];
      assert Split(t) == [Split(t)[0]] + Split(t)[1..];
    }
  }

  /** With no newline inside any part, the joined string holds exactly
      |parts| - 1 newlines: the separators. */
  lemma {:induction false} JoinNewlineCount(parts: seq<string>)
    requires |parts| >= 1
    requires forall p :: p in parts ==> Newline !in p
    ensures multiset(Join(parts, [Newline]))[Newline] == |parts| - 1
  {
    if |parts| == 1 {
      assert Newline !in parts[0];
    } else {
      JoinNewlineCount(parts[1..]);
      assert Newline !in parts[0];
      assert Join(parts, [Newline]) == parts[0] + [Newline] + Join(parts[1..], [Newline]);
    }
  }

  // ---------------------------------------------------------------------
  // Properties of `FormatTextOutput`.

  /** An absent entry never shows in the output: no blank row, no extra
      separator. */
  lemma FormatSkipsAbsent<L>(before: seq<Option<L>>, after: seq<Option<L>>, render: L -> string)
    ensures FormatTextOutput(before + [None] + after, render) == FormatTextOutput(before + after, render)
  {
    FlattenAppend(before + [None], after);
    FlattenAppend(before, [None]);
    FlattenUnit<L>(None);
    FlattenAppend(before, after);
    assert Flatten(before + [None] + after) == Flatten(before + after);
  }

  /** The output is empty exactly when nothing is present, or the single
      present line renders as the empty string. In particular an empty or
      all-absent input gives "" and not a lone newline. */
  lemma FormatEmpty<L>(textLines: seq<Option<L>>, render: L -> string)
    ensures FormatTextOutput(textLines, render) == "" <==>
      |Flatten(textLines)| == 0 ||
      (|Flatten(textLines)| == 1 && render(Flatten(textLines)[0]) == "")
  {
    var parts := Rendered(Flatten(textLines), render);
    if |parts| >= 1 {
      JoinLength(parts, [Newline]);
      assert TotalLength(parts) == |parts[0]| + TotalLength(parts[1..]);
    }
  }

  /** One present line: the output is that line's string form and nothing
      else. */
  lemma FormatSingle<L>(textLines: seq<Option<L>>, render: L -> string, i: nat)
    requires i < |textLines| && textLines[i].Some?
    requires forall j :: 0 <= j < |textLines| && j != i ==> textLines[j].None?
    ensures FormatTextOutput(textLines, render) == render(textLines[i].value)
  {
    var before, after := textLines[..i], textLines[i + 1..];
    assert textLines == before + ([textLines[i]] + after);
    FlattenAppend(before, [textLines[i]] + after);
    FlattenAppend([textLines[i]], after);
    FlattenUnit(textLines[i]);
    FlattenAbsent(before);
    FlattenAbsent(after);
  }

  /** Absent entries alone flatten to nothing. */
  lemma {:induction false} FlattenAbsent<T>(lines: seq<Option<T>>)
    requires forall j :: 0 <= j < |lines| ==> lines[j].None?
    ensures Flatten(lines) == []
  {
    if |lines| > 0 {
      FlattenAbsent(lines[1..]);
    }
  }

  /** With k >= 1 present lines that hold no newline, the output is read
      back as exactly those k lines, in order, and it holds exactly k - 1
      newlines. */
  lemma FormatRows<L>(textLines: seq<Option<L>>, render: L -> string)
    requires |Flatten(textLines)| >= 1
    requires forall v :: Some(v) in textLines ==> Newline !in render(v)
    ensures Split(FormatTextOutput(textLines, render)) == Rendered(Flatten(textLines), render)
    ensures multiset(FormatTextOutput(textLines, render))[Newline] == |Flatten(textLines)| - 1
  {
    var flat := Flatten(textLines);
    var parts := Rendered(flat, render);
    FlattenMembers(textLines);
    forall p | p in parts ensures Newline !in p {
      var k :| 0 <= k < |parts| && parts[k] == p;
      assert Some(flat[k]) in textLines;
    }
    SplitJoin(parts);
    JoinNewlineCount(parts);
  }

  /** With k >= 1 present lines the output starts with the first line's
      string form and ends with the last one's: no leading and no trailing
      separator is added. */
  lemma FormatEnds<L>(textLines: seq<Option<L>>, render: L -> string)
    requires |Flatten(textLines)| >= 1
    ensures var out := FormatTextOutput(textLines, render);
            var first := render(Flatten(textLines)[0]);
            var last := render(Flatten(textLines)[|Flatten(textLines)| - 1]);
            |first| <= |out| && |last| <= |out| &&
            out[..|first|] == first && out[|out| - |last|..] == last
  {
    var flat := Flatten(textLines);
    var parts := Rendered(flat, render);
    JoinEnds(parts, [Newline]);
    assert parts[0] == render(flat[0]);
    assert parts[|parts| - 1] == render(flat[|flat| - 1]);
  }

  /** A worked example: `[Some("A"), None, Some("B")]` gives `"A\nB"`. */
  lemma FormatExample()
    ensures FormatTextOutput([Some("A"), None, Some("B")], (s: string) => s) == "A\nB"
  {
    var lines: seq<Option<string>> := [Some("A"), None, Some("B")];
    assert lines == [Some("A")] + [None] + [Some("B")];
    FlattenAppend([Some("A")] + [None], [Some("B")]);
    FlattenAppend([Some("A")], [None]);
    FlattenUnit(Some("A"));
    FlattenUnit<string>(None);
    FlattenUnit(Some("B"));
    assert Join(["A", "B"], "\n") == "A" + "\n" + Join(["B"], "\n");
  }
}
