/** Quoting a path for a sandbox profile: two successive replacements, read back by one scan. */
module SbplLiteral {

  /** `value.replace(c, with)` for a single character `c`. */
  function Replace(value: string, c: char, with: string): string {
    if value == "" then ""
    else (if value[0] == c then with else [value[0]]) + Replace(value[1..], c, with)
  }

  /** The source: backslashes are doubled first, then quotes are escaped. */
  function Literal(value: string): string {
    "\"" + Replace(Replace(value, '\\', "\\\\"), '"', "\\\"") + "\""
  }

  /** The same in one pass, character by character. */
  function Escape(value: string): string {
    if value == "" then ""
    else (if value[0] == '\\' || value[0] == '"' then ['\\', value[0]] else [value[0]]) + Escape(value[1..])
  }

  datatype Read = NotALiteral | Read(value: string, rest: string)

  /**
   Reads up to the first quote that no backslash escapes; a backslash stands for the
   character after it.
   */
  function ReadBody(text: string): Read {
    if text == "" then NotALiteral
    else if text[0] == '"' then Read("", text[1..])
    else if text[0] == '\\' && |text| == 1 then NotALiteral
    else
      var escaped := text[0] == '\\';
      match ReadBody(text[if escaped then 2 else 1..])
      case NotALiteral => NotALiteral
      case Read(value, rest) => Read([text[if escaped then 1 else 0]] + value, rest)
  }

  function ReadLiteral(text: string): Read {
    if text != "" && text[0] == '"' then ReadBody(text[1..]) else NotALiteral
  }

  lemma {:induction false} ReplaceConcat(a: string, b: string, c: char, with: string)
    ensures Replace(a + b, c, with) == Replace(a, c, with) + Replace(b, c, with)
  {
    if a == "" {
      assert a + b == b;
    } else {
      assert (a + b)[1..] == a[1..] + b;
      ReplaceConcat(a[1..], b, c, with);
    }
  }

  /** The two replacements do not interfere: together they are the single-pass escape. */
  lemma {:induction false} TwoPassesAreOne(value: string)
    ensures Replace(Replace(value, '\\', "\\\\"), '"', "\\\"") == Escape(value)
  {
    if value != "" {
      var head := if value[0] == '\\' then "\\\\" else [value[0]];
      ReplaceConcat(head, Replace(value[1..], '\\', "\\\\"), '"', "\\\"");
      ReplacedHead(value[0]);
      TwoPassesAreOne(value[1..]);
    }
  }

  lemma ReplacedHead(c: char)
    ensures Replace(if c == '\\' then "\\\\" else [c], '"', "\\\"")
         == if c == '\\' || c == '"' then ['\\', c] else [c]
  {
    assert "\\\\"[1..] == "\\" && "\\"[1..] == "" && [c][1..] == "";
    assert Replace("\\", '"', "\\\"") == "\\" + Replace("", '"', "\\\"");
  }

  /**
   Whatever follows a literal in the profile, scanning it gives the value back and stops at
   its closing quote: every quote before that one is escaped.
   */
  lemma LiteralReadsBack(value: string, rest: string)
    ensures ReadLiteral(Literal(value) + rest) == Read(value, rest)
  {
    TwoPassesAreOne(value);
    var text := Literal(value) + rest;
    assert text[1..] == Escape(value) + "\"" + rest;
    EscapeReadsBack(value, rest);
  }

  lemma {:induction false} EscapeReadsBack(value: string, rest: string)
    ensures ReadBody(Escape(value) + "\"" + rest) == Read(value, rest)
  {
    hide Escape, ReadBody;
    if value == "" {
      NothingEscaped(rest);
    } else {
      EscapeReadsBack(value[1..], rest);
      EscapeSplits(value, rest);
      ReadOneCharacter(value[0], Escape(value[1..]) + "\"" + rest);
      assert [value[0]] + value[1..] == value;
    }
  }

  lemma NothingEscaped(rest: string)
    ensures ReadBody(Escape("") + "\"" + rest) == Read("", rest)
  {
    assert Escape("") + "\"" + rest == "\"" + rest && ("\"" + rest)[1..] == rest;
  }

  lemma EscapeSplits(value: string, rest: string)
    requires value != ""
    ensures Escape(value) + "\"" + rest == EscapeOne(value[0]) + (Escape(value[1..]) + "\"" + rest)
  {
    assert Escape(value) == EscapeOne(value[0]) + Escape(value[1..]);
  }

  function EscapeOne(c: char): string {
    if c == '\\' then "\\\\" else if c == '"' then "\\\"" else [c]
  }

  lemma ReadOneCharacter(c: char, tail: string)
    requires ReadBody(tail).Read?
    ensures ReadBody(EscapeOne(c) + tail) == Read([c] + ReadBody(tail).value, ReadBody(tail).rest)
  {
    var text := EscapeOne(c) + tail;
    if c == '\\' || c == '"' {
      assert text[0] == '\\' && text[1] == c && text[2..] == tail;
    } else {
      assert text[0] == c && text[1..] == tail;
    }
  }

  /** Distinct paths give distinct literals; neither is a proper prefix of the other. */
  lemma LiteralIsInjective(one: string, two: string, rest: string)
    requires Literal(one) <= Literal(two) + rest
    ensures one == two
  {
    LiteralReadsBack(two, rest);
    var text := Literal(two) + rest;
    var after := text[|Literal(one)|..];
    assert text == Literal(one) + after;
    LiteralReadsBack(one, after);
  }

  /** In the other order the quotes' own backslashes are doubled, and the value is lost. */
  lemma OrderOfReplacementsMatters()
    ensures var swapped := "\"" + Replace(Replace("\"", '"', "\\\""), '\\', "\\\\") + "\"";
            ReadLiteral(swapped) == Read("\\", "\"")
  {
    assert "\""[1..] == "" && "\\\""[1..] == "\"";
    assert Replace("\"", '"', "\\\"") == "\\\"" + Replace("", '"', "\\\"") == "\\\"";
    assert Replace("\"", '\\', "\\\\") == "\"" + Replace("", '\\', "\\\\") == "\"";
    assert Replace("\\\"", '\\', "\\\\") == "\\\\" + "\"" == "\\\\\"";
    var swapped := "\"" + "\\\\\"" + "\"";
    assert swapped[1..] == "\\\\\"\"";
    assert "\\\\\"\""[2..] == "\"\"" && "\"\""[1..] == "\"";
  }
}
