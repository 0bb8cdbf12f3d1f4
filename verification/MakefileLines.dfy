/**
 Reading a Makefile as text: whitespace, continuation lines and rule headers, as the
 PR-F protocol check does before it searches the rule graph.
 */
module MakefileLines {

  /** The characters `str.strip`, `str.split` and `\s` treat as white space. */
  predicate IsSpace(c: char) {
    var n := c as int;
    || 0x9 <= n <= 0xD || 0x1C <= n <= 0x20 || n == 0x85 || n == 0xA0 || n == 0x1680
    || 0x2000 <= n <= 0x200A || n == 0x2028 || n == 0x2029 || n == 0x202F || n == 0x205F || n == 0x3000
  }

  function LStrip(s: string): string {
    if s != "" && IsSpace(s[0]) then LStrip(s[1..]) else s
  }

  function RStrip(s: string): string {
    if s != "" && IsSpace(s[|s| - 1]) then RStrip(s[..|s| - 1]) else s
  }

  /** `text.rstrip().endswith("\\")`: the logical line goes on. */
  predicate Continues(text: string) {
    var stripped := RStrip(text);
    stripped != "" && stripped[|stripped| - 1] == '\\'
  }

  /** The text kept when a line continues: right-stripped, its backslash replaced by a space. */
  function Carry(text: string): string
    requires Continues(text)
  {
    var stripped := RStrip(text);
    stripped[..|stripped| - 1] + " "
  }

  function Extend(pending: string, physical: string): string {
    if pending != "" then pending + LStrip(physical) else physical
  }

  // ----- what a logical line is, without a loop -----

  /** The text collected when the physical lines of `group` are read as one logical line. */
  ghost function Text(group: seq<string>): string {
    if group == [] then ""
    else
      var before := group[..|group| - 1];
      var pending := if Continues(Text(before)) then Carry(Text(before)) else "";
      Extend(pending, group[|group| - 1])
  }

  /** Every physical line read so far ends in a continuation. */
  ghost predicate Open(group: seq<string>) {
    forall k :: 0 < k <= |group| ==> Continues(Text(group[..k]))
  }

  /** A whole logical line: every physical line but its last continues. */
  ghost predicate Closed(group: seq<string>) {
    group != [] && Open(group[..|group| - 1]) && !Continues(Text(group))
  }

  /** `groups` and an unfinished `rest` cut the file, in order, into logical lines. */
  ghost predicate IsGrouping(physical: seq<string>, groups: seq<seq<string>>, rest: seq<string>) {
    && Flatten(groups) + rest == physical
    && (forall g :: g in groups ==> Closed(g))
    && Open(rest)
  }

  ghost function Flatten(groups: seq<seq<string>>): seq<string> {
    if groups == [] then [] else Flatten(groups[..|groups| - 1]) + groups[|groups| - 1]
  }

  ghost function Texts(groups: seq<seq<string>>): (texts: seq<string>)
    ensures |texts| == |groups|
    ensures forall i :: 0 <= i < |groups| ==> texts[i] == Text(groups[i])
  {
    seq(|groups|, i requires 0 <= i < |groups| => Text(groups[i]))
  }

  /** What is pending after the lines of an open group. */
  ghost function Pending(rest: seq<string>): (pending: string)
    requires Open(rest)
    ensures pending == "" <==> rest == []
  {
    if rest == [] then "" else assert rest[..|rest|] == rest; Carry(Text(rest))
  }

  /** The logical lines a grouping stands for; an unfinished rest is kept as a last line. */
  ghost function LogicalLines(groups: seq<seq<string>>, rest: seq<string>): seq<string>
    requires Open(rest)
  {
    Texts(groups) + if rest == [] then [] else [Pending(rest)]
  }

  /** Every file can be cut, and by `GroupingIsUnique` in one way only. */
  lemma {:induction false} GroupingExists(physical: seq<string>)
    returns (groups: seq<seq<string>>, rest: seq<string>)
    ensures IsGrouping(physical, groups, rest)
  {
    hide *;
    if physical == [] {
      groups, rest := [], [];
      NothingRead();
    } else {
      var shorter, line := physical[..|physical| - 1], physical[|physical| - 1];
      groups, rest := GroupingExists(shorter);
      groups, rest := GroupOneMore(shorter, groups, rest, line);
      assert shorter + [line] == physical;
    }
  }

  lemma GroupOneMore(physical: seq<string>, g: seq<seq<string>>, r: seq<string>, line: string)
    returns (groups: seq<seq<string>>, rest: seq<string>)
    requires IsGrouping(physical, g, r)
    ensures IsGrouping(physical + [line], groups, rest)
  {
    GroupingIsOpen(physical, g, r);
    ReadOne(physical, g, r, line);
    hide *;
    if Continues(Text(r + [line])) {
      groups, rest := g, r + [line];
    } else {
      groups, rest := g + [r + [line]], [];
    }
  }

  /** The logical lines of a file: those of its one grouping. */
  ghost function Join(physical: seq<string>): seq<string> {
    assert exists groups, rest :: IsGrouping(physical, groups, rest) by {
      var g, r := GroupingExists(physical);
    }
    var groups, rest :| IsGrouping(physical, groups, rest);
    LogicalLines(groups, rest)
  }

  /** The joining loop yields the logical lines of the file's one grouping. */
  method JoinLines(physical: seq<string>) returns (lines: seq<string>)
    ensures lines == Join(physical)
    ensures forall groups, rest :: IsGrouping(physical, groups, rest) ==> lines == LogicalLines(groups, rest)
  {
    hide IsGrouping, Text, Continues, Open, Extend, Carry;
    lines := [];
    ghost var groups, rest := [], [];
    NothingRead();
    var pending := "";
    for i := 0 to |physical|
      invariant IsGrouping(physical[..i], groups, rest) && Open(rest)
      invariant lines == Texts(groups)
      invariant pending == Pending(rest)
    {
      ReadOne(physical[..i], groups, rest, physical[i]);
      assert physical[..i] + [physical[i]] == physical[..i + 1];
      pending := Extend(pending, physical[i]);
      if Continues(pending) {
        pending := Carry(pending);
        rest := rest + [physical[i]];
      } else {
        lines := lines + [pending];
        pending := "";
        groups, rest := groups + [rest + [physical[i]]], [];
      }
    }
    assert physical[..|physical|] == physical;
    if pending != "" {
      lines := lines + [pending];
    }
    JoinIsTheGrouping(physical, groups, rest);
  }

  lemma JoinIsTheGrouping(physical: seq<string>, groups: seq<seq<string>>, rest: seq<string>)
    requires IsGrouping(physical, groups, rest)
    ensures Join(physical) == LogicalLines(groups, rest)
    ensures forall g, r :: IsGrouping(physical, g, r) ==> LogicalLines(g, r) == LogicalLines(groups, rest)
  {
    forall g, r | IsGrouping(physical, g, r) ensures g == groups && r == rest {
      GroupingIsUnique(physical, g, r, groups, rest);
    }
  }

  lemma NothingRead()
    ensures IsGrouping([], [], []) && Open([]) && Pending([]) == "" && Texts([]) == []
  {
  }

  /** One more physical line either extends the open group or closes it. */
  lemma ReadOne(physical: seq<string>, groups: seq<seq<string>>, rest: seq<string>, line: string)
    requires IsGrouping(physical, groups, rest)
    ensures Text(rest + [line]) == Extend(Pending(rest), line)
    ensures Continues(Text(rest + [line])) ==>
              && IsGrouping(physical + [line], groups, rest + [line])
              && Open(rest + [line]) && Pending(rest + [line]) == Carry(Text(rest + [line]))
    ensures !Continues(Text(rest + [line])) ==>
              && IsGrouping(physical + [line], groups + [rest + [line]], []) && Open([])
              && Texts(groups + [rest + [line]]) == Texts(groups) + [Text(rest + [line])]
  {
    var group := rest + [line];
    assert group[..|group| - 1] == rest;
    assert rest[..|rest|] == rest;
    if Continues(Text(group)) {
      OpenGrows(rest, line);
      assert Flatten(groups) + group == physical + [line];
    } else {
      var more := groups + [group];
      assert more[..|more| - 1] == groups;
      assert Flatten(more) + [] == physical + [line];
    }
  }

  lemma OpenGrows(rest: seq<string>, line: string)
    requires Open(rest) && Continues(Text(rest + [line]))
    ensures Open(rest + [line])
  {
    var group := rest + [line];
    forall k | 0 < k <= |group| ensures Continues(Text(group[..k])) {
      if k <= |rest| {
        assert group[..k] == rest[..k];
      } else {
        assert group[..k] == group;
      }
    }
  }

  /** A closed group is not a prefix of anything still open, nor of another closed group. */
  lemma ClosedIsPrefixFree(a: seq<string>, b: seq<string>)
    requires Closed(a) && a <= b
    ensures !Open(b)
    ensures Closed(b) ==> a == b
  {
    assert b[..|a|] == a;
    if |a| < |b| {
      assert b[..|b| - 1][..|a|] == a;
    }
  }

  /** Every physical line belongs to exactly one logical line: the cut is unique. */
  lemma {:induction false} GroupingIsUnique(
      physical: seq<string>, g1: seq<seq<string>>, r1: seq<string>, g2: seq<seq<string>>, r2: seq<string>)
    requires IsGrouping(physical, g1, r1) && IsGrouping(physical, g2, r2)
    ensures g1 == g2 && r1 == r2
    decreases |g1| + |g2|
  {
    if g1 != [] {
      SameFirstGroup(physical, g1, r1, g2, r2);
      GroupingIsUnique(physical[|g1[0]|..], g1[1..], r1, g2[1..], r2);
      assert g1 == [g1[0]] + g1[1..] && g2 == [g2[0]] + g2[1..];
    } else if g2 != [] {
      SameFirstGroup(physical, g2, r2, g1, r1);
    } else {
      assert Flatten([]) + r1 == r1 && Flatten([]) + r2 == r2;
    }
  }

  lemma SameFirstGroup(
      physical: seq<string>, g1: seq<seq<string>>, r1: seq<string>, g2: seq<seq<string>>, r2: seq<string>)
    requires IsGrouping(physical, g1, r1) && IsGrouping(physical, g2, r2) && g1 != []
    ensures g2 != [] && g1[0] == g2[0] <= physical
    ensures IsGrouping(physical[|g1[0]|..], g1[1..], r1)
    ensures IsGrouping(physical[|g1[0]|..], g2[1..], r2)
  {
    TakeFirst(physical, g1, r1);
    if g2 == [] {
      assert r2 == Flatten([]) + r2 == physical;
      ClosedIsPrefixFree(g1[0], r2);
    } else {
      TakeFirst(physical, g2, r2);
      hide IsGrouping, Closed, Open;
      SamePrefix(physical, g1[0], g2[0]);
    }
  }

  lemma SamePrefix(physical: seq<string>, a: seq<string>, b: seq<string>)
    requires a <= physical && b <= physical && Closed(a) && Closed(b)
    ensures a == b
  {
    if |a| <= |b| {
      assert a == physical[..|a|] == b[..|a|];
      ClosedIsPrefixFree(a, b);
    } else {
      assert b == physical[..|b|] == a[..|b|];
      ClosedIsPrefixFree(b, a);
    }
  }

  lemma TakeFirst(physical: seq<string>, groups: seq<seq<string>>, rest: seq<string>)
    requires IsGrouping(physical, groups, rest) && groups != []
    ensures groups[0] <= physical && Closed(groups[0])
    ensures IsGrouping(physical[|groups[0]|..], groups[1..], rest)
  {
    hide Flatten, Closed, Open;
    FirstGroup(groups, rest);
    assert groups[0] in groups;
    assert physical == groups[0] + (Flatten(groups[1..]) + rest);
  }

  lemma {:induction false} FirstGroup(groups: seq<seq<string>>, rest: seq<string>)
    requires groups != []
    ensures Flatten(groups) + rest == groups[0] + (Flatten(groups[1..]) + rest)
    ensures forall g :: g in groups[1..] ==> g in groups
    decreases |groups|
  {
    var n := |groups| - 1;
    if n > 0 {
      FirstGroup(groups[..n], groups[n]);
      var tail := groups[1..];
      assert tail[..|tail| - 1] == groups[..n][1..] && tail[|tail| - 1] == groups[n];
      calc {
        Flatten(groups) + rest;
        (Flatten(groups[..n]) + groups[n]) + rest;
        (groups[0] + (Flatten(groups[..n][1..]) + groups[n])) + rest;
        (groups[0] + Flatten(tail)) + rest;
        groups[0] + (Flatten(tail) + rest);
      }
    } else {
      assert groups[..0] == [] && groups[1..] == [];
      assert Flatten(groups) == [] + groups[0];
    }
  }

  /** No line emitted inside the loop continues; only what is left at the end of file may. */
  lemma OnlyTheRestMayContinue(physical: seq<string>, groups: seq<seq<string>>, rest: seq<string>)
    requires IsGrouping(physical, groups, rest)
    ensures forall i :: 0 <= i < |groups| ==> !Continues(LogicalLines(groups, rest)[i])
    ensures |LogicalLines(groups, rest)| == |groups| + if rest == [] then 0 else 1
  {
    forall i | 0 <= i < |groups| ensures !Continues(LogicalLines(groups, rest)[i]) {
      assert groups[i] in groups;
    }
  }

  /** A file that ends in two backslashes leaves a last logical line that still continues. */
  lemma TheRestCanContinue()
    ensures IsGrouping(["\\\\"], [], ["\\\\"])
    ensures LogicalLines([], ["\\\\"]) == ["\\ "] && Continues("\\ ")
  {
    var file := ["\\\\"];
    assert RStrip("\\\\") == "\\\\";
    assert file[..0] == [] && file[..1] == file && Text([]) == "" && !Continues("");
    assert Text(file) == "\\\\";
    assert "\\\\"[..1] == "\\";
    assert Carry("\\\\") == "\\" + " " == "\\ ";
    assert Pending(file) == "\\ ";
    assert Texts([]) == [];
    assert RStrip("\\ ") == RStrip("\\ "[..1]) && "\\ "[..1] == "\\" && RStrip("\\") == "\\";
  }

  // ----- when the last line continues -----

  predicate IsSolid(c: char) {
    c != '\\' && !IsSpace(c)
  }

  predicate Solid(text: string) {
    exists i :: 0 <= i < |text| && IsSolid(text[i])
  }

  /** The backslashes after the last solid character of `text`. */
  function Slashes(text: string): nat {
    if text == "" || IsSolid(text[|text| - 1]) then 0
    else Slashes(text[..|text| - 1]) + if text[|text| - 1] == '\\' then 1 else 0
  }

  /**
   The backslashes that are left to continue the file: each physical line uses one up, a line with
   a solid character starts afresh, and any other line adds its own.
   */
  function Balance(physical: seq<string>): nat {
    if physical == [] then 0
    else
      var line, before := physical[|physical| - 1], Balance(physical[..|physical| - 1]);
      Slashes(line) + if Solid(line) || before == 0 then 0 else before - 1
  }

  lemma {:induction false} ContinuesWithSlashes(text: string)
    ensures Continues(text) <==> Slashes(text) > 0
    ensures Continues(text) ==> Slashes(Carry(text)) == Slashes(text) - 1
  {
    if text != "" && IsSpace(text[|text| - 1]) {
      ContinuesWithSlashes(text[..|text| - 1]);
    } else if Continues(text) {
      var carried := text[..|text| - 1] + " ";
      assert carried[..|carried| - 1] == text[..|text| - 1] && carried[|carried| - 1] == ' ';
    }
  }

  lemma {:induction false} SlashesConcat(a: string, b: string)
    ensures Slashes(a + b) == Slashes(b) + if Solid(b) then 0 else Slashes(a)
  {
    if b == "" {
      assert a + b == a;
    } else {
      var n := |b| - 1;
      assert (a + b)[..|a + b| - 1] == a + b[..n];
      assert Solid(b) <==> Solid(b[..n]) || IsSolid(b[n]) by {
        if i :| 0 <= i < n && IsSolid(b[..n][i]) { assert IsSolid(b[i]); }
        if i :| 0 <= i < |b| && IsSolid(b[i]) { assert i < n ==> IsSolid(b[..n][i]); }
      }
      SlashesConcat(a, b[..n]);
    }
  }

  lemma {:induction false} StrippedSlashes(text: string)
    ensures Slashes(LStrip(text)) == Slashes(text) && (Solid(LStrip(text)) <==> Solid(text))
  {
    if text != "" && IsSpace(text[0]) {
      var rest := text[1..];
      StrippedSlashes(rest);
      assert text == [text[0]] + rest;
      SlashesConcat([text[0]], rest);
      assert [text[0]][..0] == "";
      if i :| 0 <= i < |text| && IsSolid(text[i]) { assert IsSolid(rest[i - 1]); }
      if i :| 0 <= i < |rest| && IsSolid(rest[i]) { assert IsSolid(text[i + 1]); }
    }
  }

  lemma SlashesOfText(rest: seq<string>, line: string)
    requires Open(rest)
    ensures Slashes(Text(rest + [line]))
         == Slashes(line) + if Solid(line) || rest == [] then 0 else Slashes(Text(rest)) - 1
  {
    assert (rest + [line])[..|rest|] == rest;
    if rest == [] {
      ContinuesWithSlashes("");
    } else {
      assert rest[..|rest|] == rest;
      ContinuesWithSlashes(Text(rest));
      SlashesConcat(Carry(Text(rest)), LStrip(line));
      StrippedSlashes(line);
    }
  }

  lemma BalanceStep(physical: seq<string>, rest: seq<string>, line: string)
    requires Open(rest) && Balance(physical) == (if rest == [] then 0 else Slashes(Text(rest)))
    requires rest == [] <==> Balance(physical) == 0
    ensures Balance(physical + [line]) == Slashes(Text(rest + [line]))
  {
    SlashesOfText(rest, line);
    hide Slashes, Text, Open, Solid;
    assert (physical + [line])[..|physical|] == physical;
  }

  /** The balance is what the unfinished rest of the file ends in. */
  lemma {:induction false} BalanceOfRest(physical: seq<string>, groups: seq<seq<string>>, rest: seq<string>)
    requires IsGrouping(physical, groups, rest)
    ensures Balance(physical) == if rest == [] then 0 else Slashes(Text(rest))
    ensures rest == [] <==> Balance(physical) == 0
    decreases |physical|
  {
    hide IsGrouping, Open, Text, Slashes, Continues, Solid;
    if physical == [] {
      EmptyFile(groups, rest);
    } else {
      var shorter, line := physical[..|physical| - 1], physical[|physical| - 1];
      var g, r := GroupingExists(shorter);
      BalanceOfRest(shorter, g, r);
      assert shorter + [line] == physical;
      NextRest(shorter, g, r, line, groups, rest);
      GroupingIsOpen(shorter, g, r);
      BalanceStep(shorter, r, line);
      ContinuesWithSlashes(Text(r + [line]));
    }
  }

  lemma EmptyFile(groups: seq<seq<string>>, rest: seq<string>)
    requires IsGrouping([], groups, rest)
    ensures rest == []
  {
    assert |Flatten(groups) + rest| == 0;
  }

  lemma GroupingIsOpen(physical: seq<string>, groups: seq<seq<string>>, rest: seq<string>)
    requires IsGrouping(physical, groups, rest)
    ensures Open(rest)
  {
  }

  /** What one more line makes of the unfinished rest. */
  lemma NextRest(
      physical: seq<string>, g: seq<seq<string>>, r: seq<string>, line: string, groups: seq<seq<string>>, rest: seq<string>)
    requires IsGrouping(physical, g, r) && IsGrouping(physical + [line], groups, rest)
    ensures rest == if Continues(Text(r + [line])) then r + [line] else []
  {
    GroupingIsOpen(physical, g, r);
    ReadOne(physical, g, r, line);
    hide *;
    if Continues(Text(r + [line])) {
      GroupingIsUnique(physical + [line], groups, rest, g, r + [line]);
    } else {
      GroupingIsUnique(physical + [line], groups, rest, g + [r + [line]], []);
    }
  }

  /**
   Which logical lines of a file still continue: none but the last, and that one exactly when the
   physical lines leave a balance of two backslashes or more.
   */
  lemma ContinuingLinesExactly(physical: seq<string>, i: nat)
    requires i < |Join(physical)|
    ensures Continues(Join(physical)[i]) <==> i == |Join(physical)| - 1 && Balance(physical) >= 2
  {
    var groups, rest := GroupingExists(physical);
    JoinIsTheGrouping(physical, groups, rest);
    OnlyTheRestMayContinue(physical, groups, rest);
    BalanceOfRest(physical, groups, rest);
    if rest != [] {
      assert rest[..|rest|] == rest;
      ContinuesWithSlashes(Text(rest));
      ContinuesWithSlashes(Carry(Text(rest)));
    }
  }

  /** Some logical line of the file continues exactly when two backslashes are left over. */
  lemma SomeLineContinuesExactly(physical: seq<string>)
    ensures (exists i :: 0 <= i < |Join(physical)| && Continues(Join(physical)[i])) <==> Balance(physical) >= 2
  {
    forall i | 0 <= i < |Join(physical)|
      ensures Continues(Join(physical)[i]) <==> i == |Join(physical)| - 1 && Balance(physical) >= 2
    {
      ContinuingLinesExactly(physical, i);
    }
    var groups, rest := GroupingExists(physical);
    JoinIsTheGrouping(physical, groups, rest);
    OnlyTheRestMayContinue(physical, groups, rest);
    BalanceOfRest(physical, groups, rest);
    assert Balance(physical) >= 2 ==> Continues(Join(physical)[|Join(physical)| - 1]);
  }

  // ----- words and rule headers -----

  /** Where the first white-space character at or after `from` stands, or the end. */
  function WordEnd(s: string, from: nat): (end: nat)
    requires from <= |s|
    ensures from <= end <= |s|
    ensures forall i :: from <= i < end ==> !IsSpace(s[i])
    ensures end < |s| ==> IsSpace(s[end])
    decreases |s| - from
  {
    if from < |s| && !IsSpace(s[from]) then WordEnd(s, from + 1) else from
  }

  /** `str.split()`: the words of `s`, in order. */
  function Split(s: string): (words: seq<string>)
    ensures forall w :: w in words ==> w != "" && forall c :: c in w ==> !IsSpace(c)
    decreases |s|
  {
    if s == "" then []
    else if IsSpace(s[0]) then Split(s[1..])
    else
      var end := WordEnd(s, 0);
      [s[..end]] + Split(s[end..])
  }

  /** The first index from `from` on whose character lies in `stops`, or the end. */
  function FirstOf(s: string, from: nat, stops: set<char>): (end: nat)
    requires from <= |s|
    ensures from <= end <= |s|
    ensures forall i :: from <= i < end ==> s[i] !in stops
    ensures end < |s| ==> s[end] in stops
    decreases |s| - from
  {
    if from < |s| && s[from] !in stops then FirstOf(s, from + 1, stops) else from
  }

  /** The line matches `^([^#\t ][^:=]*):(?:\s*)(.*)$`. */
  predicate IsHeader(line: string) {
    && line != ""
    && line[0] !in {'#', '\t', ' '}
    && var colon := FirstOf(line, 1, {':', '='});
       colon < |line| && line[colon] == ':'
  }

  function Targets(line: string): seq<string>
    requires IsHeader(line)
  {
    Split(line[..FirstOf(line, 1, {':', '='})])
  }

  /** The words before the first `|`: order-only prerequisites are left out. */
  function Prerequisites(line: string): seq<string>
    requires IsHeader(line)
  {
    var raw := LStrip(line[FirstOf(line, 1, {':', '='}) + 1..]);
    Split(raw[..FirstOf(raw, 0, {'|'})])
  }

  predicate IsRecipe(line: string) {
    line != "" && line[0] == '\t'
  }

  /** A line of another kind that ends the rule above it; blanks and comments do not. */
  predicate Ends(line: string) {
    line != "" && line[0] !in {' ', '#', '\t'} && !IsHeader(line)
  }
}
