/**
 * The machine-readable part of the priorities file that generateBirdConfig
 * writes for BIRD: one `define <variable> = <priority>;` line per configured
 * peer. Rendering is paired with a parser, so that what a consumer reads
 * back from the text is exactly the list of bindings that was rendered.
 */
module BirdOutput {
  import opened Wrappers

  /** One `define` line: a BIRD variable bound to an integer priority. */
  datatype Binding = Binding(variable: string, priority: int)

  // ---------------------------------------------------------------------
  // Decimal integers, as Go's %d writes them
  // ---------------------------------------------------------------------

  predicate IsDigit(c: char)
  {
    '0' <= c <= '9'
  }

  function DigitChar(d: nat): (c: char)
    requires d < 10
    ensures IsDigit(c) && (c as int) - ('0' as int) == d
  {
    (('0' as int) + d) as char
  }

  function DigitValue(c: char): nat
    requires IsDigit(c)
  {
    (c as int) - ('0' as int)
  }

  /** The decimal digits of n, most significant first, without leading zeros. */
  function NatToString(n: nat): (s: string)
    ensures |s| >= 1
    ensures forall i :: 0 <= i < |s| ==> IsDigit(s[i])
    decreases n
  {
    if n < 10 then [DigitChar(n)] else NatToString(n / 10) + [DigitChar(n % 10)]
  }

  /** %d: a minus sign before the digits of a negative number. */
  function IntToString(n: int): (s: string)
    ensures |s| >= 1
    ensures forall i :: 0 <= i < |s| ==> IsDigit(s[i]) || (i == 0 && s[i] == '-')
  {
    if n < 0 then "-" + NatToString(-n) else NatToString(n)
  }

  /** The value of a non-empty string of decimal digits. */
  function ParseDigits(s: string): (r: Option<nat>)
    ensures r.Some? ==> s != [] && forall i :: 0 <= i < |s| ==> IsDigit(s[i])
    decreases |s|
  {
    if s == [] || !IsDigit(s[|s| - 1]) then None
    else if |s| == 1 then Some(DigitValue(s[0]))
    else match ParseDigits(s[..|s| - 1])
      case None => None
      case Some(v) => Some(v * 10 + DigitValue(s[|s| - 1]))
  }

  function ParseInt(s: string): Option<int>
  {
    if |s| >= 1 && s[0] == '-' then
      match ParseDigits(s[1..])
      case None => None
      case Some(v) => Some(-(v as int))
    else
      match ParseDigits(s)
      case None => None
      case Some(v) => Some(v)
  }

  lemma {:induction false} NatToStringParses(n: nat)
    ensures ParseDigits(NatToString(n)) == Some(n)
    decreases n
  {
    if n >= 10 {
      NatToStringParses(n / 10);
      var s := NatToString(n);
      assert s[..|s| - 1] == NatToString(n / 10);
    }
  }

  /** Reading back what %d wrote gives the number. */
  lemma IntToStringParses(n: int)
    ensures ParseInt(IntToString(n)) == Some(n)
  {
    if n < 0 {
      NatToStringParses(-n);
      assert IntToString(n)[1..] == NatToString(-n);
    } else {
      NatToStringParses(n);
    }
  }

  // ---------------------------------------------------------------------
  // Lines
  // ---------------------------------------------------------------------

  /**
   * The text before the first occurrence of c and the text after it; None
   * when c does not occur.
   */
  function SplitAt(s: string, c: char): (r: Option<(string, string)>)
    ensures r.Some? <==> c in s
    ensures r.Some? ==> c !in r.value.0 && s == r.value.0 + [c] + r.value.1
    decreases |s|
  {
    if s == [] then None
    else if s[0] == c then Some(([], s[1..]))
    else match SplitAt(s[1..], c)
      case None => None
      case Some(p) => Some(([s[0]] + p.0, p.1))
  }

  /** The split happens at the first c: none occurs in front of it. */
  lemma {:induction false} SplitAtFirst(a: string, c: char, rest: string)
    requires c !in a
    ensures SplitAt(a + [c] + rest, c) == Some((a, rest))
    decreases |a|
  {
    if a == [] {
      assert a + [c] + rest == [c] + rest;
    } else {
      assert a[0] in a && a[0] != c;
      assert c !in a[1..];
      SplitAtFirst(a[1..], c, rest);
      assert (a + [c] + rest)[0] == a[0];
      assert (a + [c] + rest)[1..] == a[1..] + [c] + rest;
      assert [a[0]] + a[1..] == a;
    }
  }

  /** What a variable name must avoid for the line grammar to stay unambiguous. */
  predicate ValidVariable(v: string)
  {
    ' ' !in v && '\n' !in v
  }

  /** One line of the file, without its newline. */
  function DefineText(b: Binding): string
  {
    "define " + b.variable + " = " + IntToString(b.priority) + ";"
  }

  /** The line fmt.Sprintf("define %s = %d;\n", ...) produces. */
  function DefineLine(b: Binding): string
  {
    DefineText(b) + "\n"
  }

  /** The lines of a list of bindings, in order. */
  function Render(bs: seq<Binding>): string
  {
    if bs == [] then "" else DefineLine(bs[0]) + Render(bs[1..])
  }

  lemma {:induction false} RenderAppend(bs: seq<Binding>, b: Binding)
    ensures Render(bs + [b]) == Render(bs) + DefineLine(b)
  {
    if bs == [] {
      assert bs + [b] == [b];
    } else {
      assert (bs + [b])[1..] == bs[1..] + [b];
      RenderAppend(bs[1..], b);
    }
  }

  /** Parses `define <variable> = <integer>;`. */
  function ParseDefineText(line: string): Option<Binding>
  {
    if |line| < 7 || line[..7] != "define " then None
    else match SplitAt(line[7..], ' ')
      case None => None
      case Some(p) =>
        var rest := p.1;
        if |rest| < 3 || rest[..2] != "= " || rest[|rest| - 1] != ';' then None
        else match ParseInt(rest[2..|rest| - 1])
          case None => None
          case Some(n) => Some(Binding(p.0, n))
  }

  /** Parses a sequence of newline-terminated define lines. */
  function ParseDefines(s: string): Option<seq<Binding>>
    decreases |s|
  {
    if s == [] then Some([])
    else match SplitAt(s, '\n')
      case None => None
      case Some(p) =>
        match ParseDefineText(p.0)
        case None => None
        case Some(b) =>
          match ParseDefines(p.1)
          case None => None
          case Some(bs) => Some([b] + bs)
  }

  lemma IntToStringHasNoNewline(n: int)
    ensures '\n' !in IntToString(n)
  {
    var d := IntToString(n);
    forall i | 0 <= i < |d|
      ensures d[i] != '\n'
    {
    }
  }

  lemma DefineTextHasNoNewline(b: Binding)
    requires ValidVariable(b.variable)
    ensures '\n' !in DefineText(b)
  {
    IntToStringHasNoNewline(b.priority);
    var d := IntToString(b.priority);
    assert DefineText(b) == "define " + b.variable + " = " + d + ";";
    assert '\n' !in "define " && '\n' !in " = " && '\n' !in ";";
  }

  lemma DefineTextParses(b: Binding)
    requires ValidVariable(b.variable)
    ensures ParseDefineText(DefineText(b)) == Some(b)
  {
    var d := IntToString(b.priority);
    var line := DefineText(b);
    var tail := "= " + d + ";";
    assert line == "define " + (b.variable + [' '] + tail);
    assert line[..7] == "define ";
    assert line[7..] == b.variable + [' '] + tail;
    SplitAtFirst(b.variable, ' ', tail);
    assert tail[..2] == "= ";
    assert tail[2..|tail| - 1] == d;
    IntToStringParses(b.priority);
  }

  /**
   * Round trip: parsing the rendered text gives back every binding, one per
   * line, in order, provided no variable contains a space or a newline.
   */
  lemma {:induction false} RenderParses(bs: seq<Binding>)
    requires forall i :: 0 <= i < |bs| ==> ValidVariable(bs[i].variable)
    ensures ParseDefines(Render(bs)) == Some(bs)
  {
    if bs != [] {
      var b := bs[0];
      DefineTextParses(b);
      DefineTextHasNoNewline(b);
      SplitAtFirst(DefineText(b), '\n', Render(bs[1..]));
      assert Render(bs) == DefineText(b) + ['\n'] + Render(bs[1..]);
      RenderParses(bs[1..]);
      assert [b] + bs[1..] == bs;
    }
  }
}
