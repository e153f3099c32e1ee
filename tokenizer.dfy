/**
 * The SQL editor's hand-written scanner: a single pass over the document
 * text that skips blanks, counts lines, and emits punctuation, comparison,
 * string, number, identifier and keyword tokens with inclusive start and
 * end offsets; and the word finder that takes the text around the caret up
 * to the nearest blank on each side.
 *
 * The static class's fields become the fields of one Tokenizer object; the
 * document is its text.
 */
module Lexer {
  import opened Wrappers
  import Text

  datatype TokenType =
    | Dot | Star | Plus | Minus | Slash | Comma | Semicolon
    | LeftBrace | RightBrace | LeftCurlyBrace | RightCurlyBrace | LeftSquareBrace | RightSquareBrace
    | Equal | NotEqual | Less | LessOrEqual | Greater | GreaterOrEqual
    | String | Number | Keyword | Operator | Identifier

  /** A token: its type, its line, and the offsets of its first and last characters. */
  datatype Token = Token(Type: TokenType, Line: int, Start: int, End: int)

  /** char.MinValue, what the look-ahead reads past the end. */
  const MinValue: char := '\0'

  /** The keys of the keyword dictionary, matched case-sensitively. */
  const Keywords: set<string> := {
    "SELECT", "TOP", "DISTINCT", "FROM", "WHERE", "AND", "OR", "NOT", "NULL", "ORDER BY",
    "ASC", "DESC", "INNER JOIN", "LEFT JOIN", "RIGHT JOIN", "FULL JOIN", "UNION", "ON"}

  /** The keys that are one word. */
  const OneWordKeywords: set<string> := {
    "SELECT", "TOP", "DISTINCT", "FROM", "WHERE", "AND", "OR", "NOT", "NULL",
    "ASC", "DESC", "UNION", "ON"}

  // ---------------------------------------------------- Character classes

  /** char.IsLetter for the Latin and Cyrillic letters. */
  predicate IsLetter(c: char)
  {
    ('A' <= c <= 'Z') || ('a' <= c <= 'z')
    || ('Ѐ' <= c <= 'ҁ') || ('Ҋ' <= c <= 'ӿ')
  }

  /** char.IsDigit for the ASCII digits. */
  predicate IsDigit(c: char)
  {
    '0' <= c <= '9'
  }

  /** Ignore: blanks that emit nothing. */
  predicate Ignore(c: char)
  {
    c == ' ' || c == '\t' || c == '\r'
  }

  predicate IsNewLine(c: char)
  {
    c == '\n'
  }

  /** IsIdentifier: the characters a name may start with. */
  predicate IsIdentifier(c: char)
  {
    IsLetter(c) || c == '_' || c == '[' || c == ']'
  }

  /** The characters a name continues with. */
  predicate IsNameChar(c: char)
  {
    IsIdentifier(c) || IsDigit(c)
  }

  /** The one-character tokens of the scan loop's first branches. */
  function SingleCharType(c: char): Option<TokenType>
  {
    if c == '.' then Some(Dot)
    else if c == '*' then Some(Star)
    else if c == '+' then Some(Plus)
    else if c == '-' then Some(Minus)
    else if c == '/' then Some(Slash)
    else if c == ',' then Some(Comma)
    else if c == ';' then Some(Semicolon)
    else if c == '(' then Some(LeftBrace)
    else if c == ')' then Some(RightBrace)
    else if c == '{' then Some(LeftCurlyBrace)
    else if c == '}' then Some(RightCurlyBrace)
    else if c == '=' then Some(Equal)
    else None
  }

  // -------------------------------------------------------- Scan, as values

  /** The character at `i`, or MinValue outside the text. */
  function CharAt(source: seq<char>, i: int): char
  {
    if 0 <= i < |source| then source[i] else MinValue
  }

  /** The line of offset `i`: one more than the line breaks before it. */
  function LineAt(source: seq<char>, i: nat): int
    requires i <= |source|
  {
    if i == 0 then 1 else LineAt(source, i - 1) + (if source[i - 1] == '\n' then 1 else 0)
  }

  /** The end of the run of digits starting at `i`. */
  function DigitsEnd(source: seq<char>, i: nat): (e: nat)
    requires i <= |source|
    ensures i <= e <= |source| && (forall k | i <= k < e :: IsDigit(source[k])) && !IsDigit(CharAt(source, e))
    decreases |source| - i
  {
    if i < |source| && IsDigit(source[i]) then DigitsEnd(source, i + 1) else i
  }

  /** The end of the run of name characters starting at `i`. */
  function NameEnd(source: seq<char>, i: nat): (e: nat)
    requires i <= |source|
    ensures i <= e <= |source| && (forall k | i <= k < e :: IsNameChar(source[k])) && !IsNameChar(CharAt(source, e))
    decreases |source| - i
  {
    if i < |source| && IsNameChar(source[i]) then NameEnd(source, i + 1) else i
  }

  /** The first double quote at or after `i`, or the end of the text. */
  function QuoteEnd(source: seq<char>, i: nat): (e: nat)
    requires i <= |source|
    ensures i <= e <= |source| && (forall k | i <= k < e :: source[k] != '"') && (e < |source| ==> source[e] == '"')
    decreases |source| - i
  {
    if i == |source| || source[i] == '"' then i else QuoteEnd(source, i + 1)
  }

  /** Where one pass of the scan loop leaves the offset, and the tokens it emits. */
  datatype Step = Step(Next: nat, Emitted: seq<Token>)

  /** '>' and '<', with their two-character forms. */
  function ComparisonStep(source: seq<char>, start: nat): (s: Step)
    requires start < |source| && (source[start] == '>' || source[start] == '<')
  {
    var line := LineAt(source, start);
    var next := CharAt(source, start + 1);
    if source[start] == '>' then
      if next == '=' then Step(start + 2, [Token(GreaterOrEqual, line, start, start + 1)])
      else Step(start + 1, [Token(Greater, line, start, start)])
    else if next == '=' then Step(start + 2, [Token(LessOrEqual, line, start, start + 1)])
    else if next == '>' then Step(start + 2, [Token(NotEqual, line, start, start + 1)])
    else Step(start + 1, [Token(Less, line, start, start)])
  }

  /** GetString: up to the closing quote; unterminated, it runs to the end and emits nothing. */
  function StringStep(source: seq<char>, start: nat): (s: Step)
    requires start < |source| && source[start] == '"'
  {
    var e := QuoteEnd(source, start + 1);
    if e == |source| then Step(e, [])
    else Step(e + 1, [Token(String, LineAt(source, e), start, e)])
  }

  /** GetNumber: digits, then a '.' and more digits when a digit follows the '.'. */
  function NumberStep(source: seq<char>, start: nat): (s: Step)
    requires start < |source| && IsDigit(source[start])
  {
    var last := NumberEnd(source, start);
    Step(last, [Token(Number, LineAt(source, start), start, last - 1)])
  }

  /** Where a number starting at `start` ends. */
  function NumberEnd(source: seq<char>, start: nat): (last: nat)
    requires start < |source|
    ensures start < last <= |source|
  {
    var e := DigitsEnd(source, start + 1);
    if CharAt(source, e) == '.' && IsDigit(CharAt(source, e + 1)) then DigitsEnd(source, e + 1) else e
  }

  /** GetIdentifier: the run of name characters, a keyword when it is a dictionary key. */
  function NameStep(source: seq<char>, start: nat): (s: Step)
    requires start < |source| && IsIdentifier(source[start])
  {
    var e := NameEnd(source, start + 1);
    Step(e, [Token(NameKind(source[start..e]), LineAt(source, start), start, e - 1)])
  }

  /** A name is a keyword exactly when it is a key of the dictionary. */
  function NameKind(text: seq<char>): TokenType
  {
    if text in Keywords then Keyword else Identifier
  }

  /** One pass of the scan loop from `start`. */
  function StepAt(source: seq<char>, start: nat): (s: Step)
    requires start < |source|
  {
    var c := source[start];
    if Ignore(c) || IsNewLine(c) then Step(start + 1, [])
    else if SingleCharType(c).Some? then Step(start + 1, [Token(SingleCharType(c).value, LineAt(source, start), start, start)])
    else if c == '>' || c == '<' then ComparisonStep(source, start)
    else if c == '"' then StringStep(source, start)
    else if IsDigit(c) then NumberStep(source, start)
    else if IsIdentifier(c) then NameStep(source, start)
    else Step(start + 1, [])
  }

  /** Every pass moves forward and stays within the text. */
  lemma StepAdvances(source: seq<char>, start: nat)
    requires start < |source|
    ensures start < StepAt(source, start).Next <= |source|
  {
  }

  /** The tokens of the text from offset `i` on. */
  function LexFrom(source: seq<char>, i: nat): seq<Token>
    requires i <= |source|
    decreases |source| - i
  {
    if i == |source| then []
    else
      StepAdvances(source, i);
      var s := StepAt(source, i);
      s.Emitted + LexFrom(source, s.Next)
  }

  /** The tokens Scan returns for a text. */
  function Lex(source: seq<char>): seq<Token>
  {
    LexFrom(source, 0)
  }

  // ------------------------------------------------------ The tokenizer

  class Tokenizer {
    var Source: seq<char>
    var Start: int
    var Offset: int
    var End: int
    var Line: int
    var Current: char
    var Tokens: seq<Token>

    /** The offset stays within the text, which ends at End. */
    ghost predicate Valid()
      reads this
    {
      End == |Source| && 0 <= Offset <= End
    }

    /** The fields as the static class starts them. */
    constructor ()
      ensures Source == [] && Start == 0 && Offset == 0 && End == 0 && Line == 0 && Tokens == [] && Valid()
    {
      Source, Start, Offset, End, Line, Current, Tokens := [], 0, 0, 0, 0, MinValue, [];
    }

    /** EndOfSource. */
    predicate EndOfSource()
      reads this
    {
      Offset == End
    }

    /** LookNext: the character at the offset, MinValue at the end. */
    function LookNext(): (c: char)
      reads this
      requires Valid()
      ensures c == CharAt(Source, Offset)
    {
      if EndOfSource() then MinValue else Source[Offset]
    }

    /** LookSecond: the character after it, MinValue when that is past the end. */
    function LookSecond(): (c: char)
      reads this
      requires Valid()
      ensures c == CharAt(Source, Offset + 1)
    {
      if Offset + 1 >= End then MinValue else Source[Offset + 1]
    }

    /** MoveNext: reads the character at the offset and steps past it; at the end it reads MinValue and stays. */
    method MoveNext() returns (c: char)
      modifies this`Offset
      requires Valid()
      ensures Valid() && c == CharAt(Source, old(Offset))
      ensures Offset == if old(Offset) == End then old(Offset) else old(Offset) + 1
    {
      if EndOfSource() {
        return MinValue;
      }
      c := Source[Offset];
      Offset := Offset + 1;
    }

    /** MoveIfMatch: steps past the next character exactly when it is the expected one. */
    method MoveIfMatch(expected: char) returns (matched: bool)
      modifies this`Offset
      requires Valid()
      ensures Valid() && matched == (old(Offset) < End && Source[old(Offset)] == expected)
      ensures Offset == if matched then old(Offset) + 1 else old(Offset)
    {
      if EndOfSource() {
        return false;
      }
      if Source[Offset] != expected {
        return false;
      }
      Offset := Offset + 1;
      return true;
    }

    method AddToken(tokenType: TokenType, line: int, start: int, end: int)
      modifies this`Tokens
      ensures Tokens == old(Tokens) + [Token(tokenType, line, start, end)]
    {
      Tokens := Tokens + [Token(tokenType, line, start, end)];
    }

    /** GetString, entered just after the opening quote. */
    method GetString()
      modifies this`Offset, this`Line, this`Tokens
      requires Valid() && 0 <= Start < |Source| && Source[Start] == '"' && Offset == Start + 1
      requires Line == LineAt(Source, Offset)
      ensures Valid() && Line == LineAt(Source, Offset)
      ensures Offset == StringStep(Source, Start).Next && Tokens == old(Tokens) + StringStep(Source, Start).Emitted
    {
      while !EndOfSource() && LookNext() != '"'
        invariant Valid() && Start < Offset && Line == LineAt(Source, Offset)
        invariant QuoteEnd(Source, Offset) == QuoteEnd(Source, Start + 1) && Tokens == old(Tokens)
        decreases End - Offset
      {
        if IsNewLine(LookNext()) {
          Line := Line + 1;
        }
        var skipped := MoveNext();
      }
      if !EndOfSource() {
        Tokens := Tokens + [Token(String, Line, Start, Offset)];
        var closing := MoveNext();
      }
    }

    /** GetNumber, entered just after the first digit. */
    method GetNumber()
      modifies this`Offset, this`Tokens
      requires Valid() && 0 <= Start < |Source| && IsDigit(Source[Start]) && Offset == Start + 1
      requires Line == LineAt(Source, Offset)
      ensures Valid() && Line == LineAt(Source, Offset)
      ensures Offset == NumberStep(Source, Start).Next && Tokens == old(Tokens) + NumberStep(Source, Start).Emitted
    {
      ghost var source, start := Source, Start;
      assert Line == LineAt(source, start);
      SkipDigits();
      ghost var e := Offset;
      if LookNext() == '.' && IsDigit(LookSecond()) {
        var dot := MoveNext();
        SkipDigits();
      }
      assert Offset == NumberEnd(source, start);
      Tokens := Tokens + [Token(Number, Line, Start, Offset - 1)];
    }

    /** The `while (char.IsDigit(LookNext())) MoveNext();` loops of GetNumber. */
    method SkipDigits()
      modifies this`Offset
      requires Valid() && Line == LineAt(Source, Offset)
      ensures Valid() && Line == LineAt(Source, Offset) && Offset == DigitsEnd(Source, old(Offset))
    {
      ghost var from := Offset;
      while IsDigit(LookNext())
        invariant Valid() && from <= Offset && Line == LineAt(Source, Offset)
        invariant DigitsEnd(Source, Offset) == DigitsEnd(Source, from)
        decreases End - Offset
      {
        var digit := MoveNext();
      }
    }

    /** GetIdentifier, entered just after the first character. */
    method GetIdentifier()
      modifies this`Offset, this`Tokens
      requires Valid() && 0 <= Start < |Source| && IsIdentifier(Source[Start]) && Offset == Start + 1
      requires Line == LineAt(Source, Offset)
      ensures Valid() && Line == LineAt(Source, Offset)
      ensures Offset == NameStep(Source, Start).Next && Tokens == old(Tokens) + NameStep(Source, Start).Emitted
    {
      SkipName();
      assert Offset == NameEnd(Source, Start + 1);
      var kind := NameKind(Source[Start..Offset]);
      Tokens := Tokens + [Token(kind, Line, Start, Offset - 1)];
    }

    /** The `while (IsIdentifier(LookNext()) || char.IsDigit(LookNext())) MoveNext();` loop of GetIdentifier. */
    method SkipName()
      modifies this`Offset
      requires Valid() && Line == LineAt(Source, Offset)
      ensures Valid() && Line == LineAt(Source, Offset) && Offset == NameEnd(Source, old(Offset))
    {
      ghost var from := Offset;
      while IsIdentifier(LookNext()) || IsDigit(LookNext())
        invariant Valid() && from <= Offset && Line == LineAt(Source, Offset)
        invariant NameEnd(Source, Offset) == NameEnd(Source, from)
        decreases End - Offset
      {
        var skipped := MoveNext();
      }
    }

    /** The '>' and '<' branches of the scan loop, entered just after the character. */
    method GetComparison()
      modifies this`Offset, this`Tokens
      requires Valid() && 0 <= Start < |Source| && (Source[Start] == '>' || Source[Start] == '<') && Offset == Start + 1
      requires Line == LineAt(Source, Start)
      ensures Valid() && Offset == ComparisonStep(Source, Start).Next && Tokens == old(Tokens) + ComparisonStep(Source, Start).Emitted
    {
      if Source[Start] == '>' {
        var equal := MoveIfMatch('=');
        if equal {
          AddToken(GreaterOrEqual, Line, Start, Start + 1);
        } else {
          AddToken(Greater, Line, Start, Start);
        }
      } else {
        var equal := MoveIfMatch('=');
        if equal {
          AddToken(LessOrEqual, Line, Start, Start + 1);
        } else {
          var greater := MoveIfMatch('>');
          if greater {
            AddToken(NotEqual, Line, Start, Start + 1);
          } else {
            AddToken(Less, Line, Start, Start);
          }
        }
      }
    }

    /** One pass of the scan loop. */
    method ScanNext()
      modifies this`Start, this`Current, this`Offset, this`Line, this`Tokens
      requires Valid() && Offset < End && Line == LineAt(Source, Offset)
      ensures Valid() && Line == LineAt(Source, Offset)
      ensures Offset == StepAt(Source, old(Offset)).Next && Tokens == old(Tokens) + StepAt(Source, old(Offset)).Emitted
    {
      Start := Offset;
      Current := MoveNext();
      if Ignore(Current) {
      } else if IsNewLine(Current) {
        Line := Line + 1;
      } else if SingleCharType(Current).Some? {
        AddToken(SingleCharType(Current).value, Line, Start, Start);
      } else if Current == '>' || Current == '<' {
        GetComparison();
      } else if Current == '"' {
        GetString();
      } else if IsDigit(Current) {
        GetNumber();
      } else if IsIdentifier(Current) {
        GetIdentifier();
      }
    }

    /**
     * Scan: the tokens of the whole text, from a fresh list at line 1 and
     * offset 0; the line counter ends one past the number of line breaks.
     */
    method Scan(source: seq<char>) returns (tokens: seq<Token>)
      modifies this
      ensures Valid() && Source == source && Offset == |source|
      ensures tokens == Tokens == Lex(source)
      ensures Line == LineAt(source, |source|)
    {
      Line := 1;
      Start := 0;
      Offset := 0;
      Source := source;
      End := |source|;
      Tokens := [];
      while !EndOfSource()
        invariant Valid() && Source == source && Line == LineAt(Source, Offset)
        invariant Tokens + LexFrom(Source, Offset) == Lex(Source)
        decreases End - Offset
      {
        ghost var before, step := Tokens, StepAt(Source, Offset);
        LexFromStep(Source, Offset);
        ScanNext();
        Text.AppendAssociates(before, step.Emitted, LexFrom(Source, Offset));
      }
      tokens := Tokens;
    }
  }

  // ------------------------------------------------------ Token shapes

  /** A number's text: digits, or digits, one '.' and digits. */
  predicate NumberText(s: seq<char>)
  {
    (s != [] && forall k | 0 <= k < |s| :: IsDigit(s[k]))
    || exists p | 0 < p < |s| - 1 :: s[p] == '.' && forall k | 0 <= k < |s| && k != p :: IsDigit(s[k])
  }

  /** A name's text: a start character, then name characters. */
  predicate NameText(s: seq<char>)
  {
    s != [] && IsIdentifier(s[0]) && forall k | 0 <= k < |s| :: IsNameChar(s[k])
  }

  /**
   * What each emitted token covers: a one-character token its character; a
   * two-character comparison its two characters; a lone '>' or '<' one not
   * followed by what would extend it; a string its quotes with no quote
   * between; a number or a name the longest run of its characters; and a
   * name is a keyword exactly when it is a dictionary key.
   */
  predicate WellFormed(source: seq<char>, t: Token)
  {
    0 <= t.Start <= t.End < |source| && t.Line == LineAt(source, t.End) && Shaped(source, t)
  }

  predicate Shaped(source: seq<char>, t: Token)
    requires 0 <= t.Start <= t.End < |source|
  {
    var text := source[t.Start..t.End + 1];
    var next := CharAt(source, t.End + 1);
    match t.Type
    case GreaterOrEqual => text == ">="
    case LessOrEqual => text == "<="
    case NotEqual => text == "<>"
    case Greater => text == ">" && next != '='
    case Less => text == "<" && next != '=' && next != '>'
    case String => t.Start < t.End && source[t.Start] == '"' && source[t.End] == '"' && '"' !in source[t.Start + 1..t.End]
    case Number => NumberText(text) && !IsDigit(next)
    case Keyword => NameText(text) && text in Keywords && !IsNameChar(next)
    case Identifier => NameText(text) && text !in Keywords && !IsNameChar(next)
    case _ => t.Start == t.End && SingleCharType(source[t.Start]) == Some(t.Type)
  }

  /** A line break-free run keeps the line. */
  lemma {:induction false} LineSteady(source: seq<char>, i: nat, j: nat)
    requires i <= j <= |source| && forall k | i <= k < j :: source[k] != '\n'
    ensures LineAt(source, j) == LineAt(source, i)
    decreases j - i
  {
    if i < j {
      LineSteady(source, i, j - 1);
    }
  }

  /** Digits, optionally followed by a '.' and more digits, make a number's text. */
  lemma NumberTextOf(source: seq<char>, start: nat, e: nat, last: nat)
    requires start < e <= last <= |source| && forall k | start <= k < e :: IsDigit(source[k])
    requires last == e || (e + 1 < last && source[e] == '.' && forall k | e < k < last :: IsDigit(source[k]))
    ensures NumberText(source[start..last])
  {
    var text := source[start..last];
    if last == e {
      forall k | 0 <= k < |text| ensures IsDigit(text[k]) {
        assert text[k] == source[start + k];
      }
    } else {
      var p := e - start;
      forall k | 0 <= k < |text| && k != p ensures IsDigit(text[k]) {
        assert text[k] == source[start + k];
      }
      assert text[p] == '.';
    }
  }

  lemma NumberShape(source: seq<char>, start: nat)
    requires start < |source| && IsDigit(source[start])
    ensures var s := NumberStep(source, start);
      start < s.Next <= |source| && |s.Emitted| == 1 && s.Emitted[0].Start == start && s.Emitted[0].End < s.Next
      && WellFormed(source, s.Emitted[0])
  {
    var e := DigitsEnd(source, start + 1);
    var s := NumberStep(source, start);
    var t := s.Emitted[0];
    assert t.Start == start && t.End + 1 == s.Next;
    NumberTextOf(source, start, e, s.Next);
    assert source[t.Start..t.End + 1] == source[start..s.Next];
    LineSteady(source, start, t.End);
  }

  lemma NameShape(source: seq<char>, start: nat)
    requires start < |source| && IsIdentifier(source[start])
    ensures var s := NameStep(source, start);
      start < s.Next <= |source| && |s.Emitted| == 1 && s.Emitted[0].Start == start && s.Emitted[0].End < s.Next
      && WellFormed(source, s.Emitted[0])
  {
    var s := NameStep(source, start);
    var t := s.Emitted[0];
    assert source[t.Start..t.End + 1] == source[start..s.Next];
    LineSteady(source, start, t.End);
  }

  lemma StringShape(source: seq<char>, start: nat)
    requires start < |source| && source[start] == '"'
    ensures var s := StringStep(source, start);
      start < s.Next <= |source| && |s.Emitted| <= 1
      && (s.Emitted == [] <==> s.Next == |source| && '"' !in source[start + 1..])
      && (|s.Emitted| == 1 ==> s.Emitted[0].Start == start && s.Emitted[0].End < s.Next && WellFormed(source, s.Emitted[0]))
  {
    var e := QuoteEnd(source, start + 1);
    if e < |source| {
      assert source[start + 1..e] == source[start + 1..][..e - start - 1];
      assert source[start + 1..][e - start - 1] == '"';
    }
  }

  lemma ComparisonShape(source: seq<char>, start: nat)
    requires start < |source| && (source[start] == '>' || source[start] == '<')
    ensures var s := ComparisonStep(source, start);
      start < s.Next <= |source| && |s.Emitted| == 1 && s.Emitted[0].Start == start && s.Emitted[0].End < s.Next
      && WellFormed(source, s.Emitted[0])
  {
    var s := ComparisonStep(source, start);
    var t := s.Emitted[0];
    assert source[t.Start..t.End + 1] == source[start..s.Next];
    LineSteady(source, start, t.End);
  }

  /** Every pass emits at most one token, within the characters it consumes. */
  lemma StepBounds(source: seq<char>, start: nat)
    requires start < |source|
    ensures var s := StepAt(source, start);
      start < s.Next <= |source| && |s.Emitted| <= 1
      && forall t | t in s.Emitted :: start <= t.Start <= t.End < s.Next
  {
    var c := source[start];
    if Ignore(c) || IsNewLine(c) {
    } else if SingleCharType(c).Some? {
    } else if c == '>' || c == '<' {
      ComparisonShape(source, start);
    } else if c == '"' {
      StringShape(source, start);
    } else if IsDigit(c) {
      NumberShape(source, start);
    } else if IsIdentifier(c) {
      NameShape(source, start);
    }
  }

  /** Every token a pass emits is well formed. */
  lemma StepWellFormed(source: seq<char>, start: nat)
    requires start < |source|
    ensures forall t | t in StepAt(source, start).Emitted :: WellFormed(source, t)
  {
    var c := source[start];
    if Ignore(c) || IsNewLine(c) {
    } else if SingleCharType(c).Some? {
    } else if c == '>' || c == '<' {
      ComparisonShape(source, start);
    } else if c == '"' {
      StringShape(source, start);
    } else if IsDigit(c) {
      NumberShape(source, start);
    } else if IsIdentifier(c) {
      NameShape(source, start);
    }
  }

  /** One pass of the scan loop, unfolded. */
  lemma LexFromStep(source: seq<char>, i: nat)
    requires i < |source|
    ensures StepAt(source, i).Next <= |source|
    ensures LexFrom(source, i) == StepAt(source, i).Emitted + LexFrom(source, StepAt(source, i).Next)
  {
    StepAdvances(source, i);
  }

  /**
   * The tokens from offset `i` on lie within the text at or after `i`, and
   * each ends before the next one starts.
   */
  lemma {:induction false} LexFromOrder(source: seq<char>, i: nat)
    requires i <= |source|
    ensures var ts := LexFrom(source, i);
      (forall k | 0 <= k < |ts| :: i <= ts[k].Start <= ts[k].End < |source|)
      && forall k | 0 < k < |ts| :: ts[k - 1].End < ts[k].Start
    decreases |source| - i
  {
    if i < |source| {
      var s := StepAt(source, i);
      StepBounds(source, i);
      LexFromStep(source, i);
      LexFromOrder(source, s.Next);
      var ts := LexFrom(source, i);
      var rest := LexFrom(source, s.Next);
      if s.Emitted != [] {
        var t := s.Emitted[0];
        assert ts == [t] + rest;
        assert i <= t.Start <= t.End < s.Next;
      }
    }
  }

  /** Each token ending before the next makes every earlier token end before every later one. */
  lemma {:induction false} OrderedPairs(ts: seq<Token>, j: nat, k: nat)
    requires (forall m | 0 <= m < |ts| :: ts[m].Start <= ts[m].End)
    requires (forall m | 0 < m < |ts| :: ts[m - 1].End < ts[m].Start)
    requires j < k < |ts|
    ensures ts[j].End < ts[k].Start
    decreases k - j
  {
    if j + 1 < k {
      OrderedPairs(ts, j, k - 1);
    }
  }

  /** The tokens from offset `i` on are well formed. */
  lemma {:induction false} LexFromWellFormed(source: seq<char>, i: nat)
    requires i <= |source|
    ensures forall t | t in LexFrom(source, i) :: WellFormed(source, t)
    decreases |source| - i
  {
    if i < |source| {
      var s := StepAt(source, i);
      StepWellFormed(source, i);
      LexFromStep(source, i);
      LexFromWellFormed(source, s.Next);
    }
  }

  /**
   * The scanned tokens lie within the text, each with Start <= End, and in
   * strictly increasing, non-overlapping order.
   */
  lemma LexOrder(source: seq<char>)
    ensures var ts := Lex(source);
      (forall k | 0 <= k < |ts| :: 0 <= ts[k].Start <= ts[k].End < |source|)
      && forall j, k | 0 <= j < k < |ts| :: ts[j].End < ts[k].Start
  {
    LexFromOrder(source, 0);
    var ts := Lex(source);
    assert ts == LexFrom(source, 0);
    assert forall m | 0 <= m < |ts| :: 0 <= ts[m].Start <= ts[m].End < |source|;
    assert forall m | 0 < m < |ts| :: ts[m - 1].End < ts[m].Start;
    forall j, k | 0 <= j < k < |ts| ensures ts[j].End < ts[k].Start {
      OrderedPairs(ts, j, k);
    }
  }

  /** Each scanned token is well formed for its type and on the line of its last character. */
  lemma LexWellFormed(source: seq<char>)
    ensures forall t | t in Lex(source) :: WellFormed(source, t)
  {
    LexFromWellFormed(source, 0);
  }

  /**
   * The multi-word dictionary keys never match: a keyword token is always
   * one of the one-word keys (so `JOIN`, `ORDER` and `BY` scan as
   * identifiers), and the match is case-sensitive.
   */
  lemma KeywordsAreOneWord(source: seq<char>)
    ensures forall t | t in Lex(source) && t.Type == Keyword ::
      0 <= t.Start <= t.End < |source| && source[t.Start..t.End + 1] in OneWordKeywords
  {
    LexWellFormed(source);
    forall t | t in Lex(source) && t.Type == Keyword
      ensures 0 <= t.Start <= t.End < |source| && source[t.Start..t.End + 1] in OneWordKeywords
    {
      var text := source[t.Start..t.End + 1];
      assert WellFormed(source, t);
      assert ' ' !in text by {
        forall k | 0 <= k < |text| ensures text[k] != ' ' {
          assert IsNameChar(text[k]);
        }
      }
      assert "ORDER BY"[5] == ' ' && "INNER JOIN"[5] == ' ' && "LEFT JOIN"[4] == ' ';
      assert "RIGHT JOIN"[5] == ' ' && "FULL JOIN"[4] == ' ';
    }
  }

  /** A character that starts no token: blanks, line breaks and anything unknown. */
  predicate Skipped(c: char)
  {
    Ignore(c) || IsNewLine(c)
    || !(SingleCharType(c).Some? || c == '>' || c == '<' || c == '"' || IsDigit(c) || IsIdentifier(c))
  }

  /** A text of skipped characters only scans to no tokens. */
  lemma {:induction false} SkippedOnly(source: seq<char>, i: nat)
    requires i <= |source| && forall k | i <= k < |source| :: Skipped(source[k])
    ensures LexFrom(source, i) == []
    decreases |source| - i
  {
    if i < |source| {
      assert Skipped(source[i]);
      SkippedOnly(source, i + 1);
    }
  }

  /** An unterminated string hides the rest of the text: it emits nothing and nothing follows it. */
  lemma UnterminatedString(source: seq<char>, start: nat)
    requires start < |source| && source[start] == '"' && '"' !in source[start + 1..]
    ensures LexFrom(source, start) == []
  {
    StringShape(source, start);
  }

  // ------------------------------------------------------ The word finder

  datatype SearchDirection = Left | Right

  /** The characters that delimit the current word; a tab is not one. */
  predicate IsSeparator(c: char)
  {
    c == ' ' || c == '\n' || c == '\r'
  }

  /** Just after the last separator before `offset`, or 0. */
  function LeftEdge(text: seq<char>, offset: nat): (left: nat)
    requires offset <= |text|
    ensures left <= offset && (left == 0 || IsSeparator(text[left - 1]))
    ensures forall k | left <= k < offset :: !IsSeparator(text[k])
  {
    if offset == 0 then 0
    else if IsSeparator(text[offset - 1]) then offset
    else LeftEdge(text, offset - 1)
  }

  /** The first separator at or after `offset`, or the end of the text. */
  function RightEdge(text: seq<char>, offset: nat): (right: nat)
    requires offset <= |text|
    ensures offset <= right <= |text| && (right == |text| || IsSeparator(text[right]))
    ensures forall k | offset <= k < right :: !IsSeparator(text[k])
    decreases |text| - offset
  {
    if offset == |text| || IsSeparator(text[offset]) then offset else RightEdge(text, offset + 1)
  }

  /**
   * The left search as written: when the only separator before the caret
   * is the text's first character, it answers 0 instead of 1.
   */
  function LeftEdgeAsWritten(text: seq<char>, offset: nat): nat
    requires offset <= |text|
  {
    var left := LeftEdge(text, offset);
    if left == 1 then 0 else left
  }

  /** SearchEdge(Left) as written: steps left while not on a separator, stopping at index 0. */
  method SearchLeftAsWritten(text: seq<char>, offset: nat) returns (index: nat)
    requires offset <= |text|
    ensures index == LeftEdgeAsWritten(text, offset)
  {
    if offset == 0 {
      return offset;
    }
    index := offset - 1;
    var chr := text[index];
    while index > 0 && !IsSeparator(chr)
      invariant index < offset && chr == text[index]
      invariant LeftEdge(text, index + 1) == LeftEdge(text, offset)
    {
      index := index - 1;
      chr := text[index];
    }
    return if index == 0 then index else index + 1;
  }

  /** The discrepancy: for " a" with the caret after "a", the word found keeps the leading blank. */
  lemma LeftEdgeAsWrittenKeepsBlank()
    ensures LeftEdgeAsWritten(" a", 2) == 0 && IsSeparator(" a"[0])
    ensures LeftEdge(" a", 2) == 1
  {
  }

  /** SearchEdge, with the left search stepping past a separator at index 0 too. */
  method SearchEdge(text: seq<char>, offset: nat, direction: SearchDirection) returns (index: nat)
    requires offset <= |text|
    ensures index == if direction == Left then LeftEdge(text, offset) else RightEdge(text, offset)
  {
    if direction == Left {
      if offset == 0 {
        return offset;
      }
      index := offset - 1;
      var chr := text[index];
      while index > 0 && !IsSeparator(chr)
        invariant index < offset && chr == text[index]
        invariant LeftEdge(text, index + 1) == LeftEdge(text, offset)
      {
        index := index - 1;
        chr := text[index];
      }
      return if index == 0 && !IsSeparator(chr) then index else index + 1;
    } else {
      if offset == |text| {
        return offset;
      }
      index := offset;
      while true
        invariant offset <= index < |text| && RightEdge(text, index) == RightEdge(text, offset)
        decreases |text| - index
      {
        var chr := text[index];
        if IsSeparator(chr) {
          break;
        }
        index := index + 1;
        if index >= |text| {
          break;
        }
      }
    }
  }

  /**
   * GetCurrent: the word around the caret, from just after the nearest
   * separator on the left to the nearest separator on the right.
   */
  method GetCurrent(text: seq<char>, offset: nat) returns (current: seq<char>)
    requires offset <= |text|
    ensures current == text[LeftEdge(text, offset)..RightEdge(text, offset)]
  {
    var left := SearchEdge(text, offset, Left);
    var right := SearchEdge(text, offset, Right);
    current := text[left..right];
  }

  /**
   * The current word spans the caret, holds no separator, and cannot be
   * extended: a separator or an end of the text lies on each side.
   */
  lemma CurrentWord(text: seq<char>, offset: nat)
    requires offset <= |text|
    ensures var left, right := LeftEdge(text, offset), RightEdge(text, offset);
      0 <= left <= offset <= right <= |text|
      && (forall k | left <= k < right :: !IsSeparator(text[k]))
      && (left == 0 || IsSeparator(text[left - 1])) && (right == |text| || IsSeparator(text[right]))
  {
  }

  /** A text without separators, tabs included, is one word wherever the caret is. */
  lemma {:induction false} NoSeparatorOneWord(text: seq<char>, offset: nat)
    requires offset <= |text| && forall k | 0 <= k < |text| :: !IsSeparator(text[k])
    ensures LeftEdge(text, offset) == 0 && RightEdge(text, offset) == |text|
    decreases offset
  {
    if offset > 0 {
      NoSeparatorOneWord(text, offset - 1);
    }
    NoSeparatorRight(text, offset);
  }

  lemma {:induction false} NoSeparatorRight(text: seq<char>, offset: nat)
    requires offset <= |text| && forall k | 0 <= k < |text| :: !IsSeparator(text[k])
    ensures RightEdge(text, offset) == |text|
    decreases |text| - offset
  {
    if offset < |text| {
      NoSeparatorRight(text, offset + 1);
    }
  }
}
