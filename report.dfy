/**
 * The text `save` writes: one line `name = value` per parameter, in insertion
 * order, and nothing else. A parser for that text is given as its inverse.
 */
module Report {
  import opened Wrappers
  import opened OrderedDict
  import opened Values

  /** The line `f"{name} = {value}\n"`. */
  function Line(name: string, v: Value): string
  {
    name + " = " + Text(v) + "\n"
  }

  /** The whole report for a parameter dictionary, in its order. */
  function Render(ps: Dict<Value>): string
  {
    if ps == [] then "" else Line(ps[0].0, ps[0].1) + Render(ps[1..])
  }

  /** Each parameter as the pair of texts its line shows. */
  function Shown(ps: Dict<Value>): seq<(string, string)>
  {
    seq(|ps|, k requires 0 <= k < |ps| => (ps[k].0, Text(ps[k].1)))
  }

  /** Every name and every value text fits on its line. */
  predicate SingleLines(ps: Dict<Value>)
  {
    forall k :: 0 <= k < |ps| ==> '\n' !in ps[k].0 && '\n' !in Text(ps[k].1)
  }

  /** Every entry fits on its line and no name holds `=`, so each line splits at its first `=`. */
  predicate Readable(ps: Dict<Value>)
  {
    SingleLines(ps) && forall k :: 0 <= k < |ps| ==> '=' !in ps[k].0
  }

  /** How many times c occurs in s. */
  function Count(s: string, c: char): nat
  {
    if s == [] then 0 else (if s[0] == c then 1 else 0) + Count(s[1..], c)
  }

  /** The first position of c in s, or |s| when there is none. */
  function IndexOf(s: string, c: char): (i: nat)
    ensures i <= |s|
    ensures i < |s| ==> s[i] == c
    ensures forall k :: 0 <= k < i ==> s[k] != c
  {
    if s == [] then 0
    else if s[0] == c then 0
    else 1 + IndexOf(s[1..], c)
  }

  /** Reads one line `name = text` back; the name ends at the first `=`. */
  function ParseLine(line: string): Option<(string, string)>
  {
    var i := IndexOf(line, '=');
    if 1 <= i < |line| - 1 && line[i - 1] == ' ' && line[i + 1] == ' '
    then Some((line[..i - 1], line[i + 2..]))
    else None
  }

  /** Reads a whole report back, line by line; every line must end with a newline. */
  function Parse(s: string): Option<seq<(string, string)>>
    decreases |s|
  {
    if s == [] then Some([])
    else
      var i := IndexOf(s, '\n');
      if i == |s| then None
      else
        match ParseLine(s[..i])
        case None => None
        case Some(entry) =>
          match Parse(s[i + 1..])
          case None => None
          case Some(rest) => Some([entry] + rest)
  }

  /** The reports of a dictionary and of its extension by one entry differ by that entry's line. */
  lemma {:induction false} RenderAppend(ps: Dict<Value>, name: string, v: Value)
    ensures Render(ps + [(name, v)]) == Render(ps) + Line(name, v)
  {
    if ps != [] {
      assert (ps + [(name, v)])[1..] == ps[1..] + [(name, v)];
      RenderAppend(ps[1..], name, v);
    } else {
      assert [(name, v)][1..] == [];
    }
  }

  lemma {:induction false} CountAppend(a: string, b: string, c: char)
    ensures Count(a + b, c) == Count(a, c) + Count(b, c)
  {
    if a != [] {
      assert (a + b)[1..] == a[1..] + b;
      CountAppend(a[1..], b, c);
    } else {
      assert a + b == b;
    }
  }

  lemma {:induction false} CountAbsent(s: string, c: char)
    requires c !in s
    ensures Count(s, c) == 0
  {
    if s != [] {
      CountAbsent(s[1..], c);
    }
  }

  /** A report whose names and value texts hold no newline has exactly one line per parameter. */
  lemma {:induction false} RenderLineCount(ps: Dict<Value>)
    requires SingleLines(ps)
    ensures Count(Render(ps), '\n') == |ps|
  {
    if ps != [] {
      var name, v := ps[0].0, ps[0].1;
      assert '\n' !in name && '\n' !in Text(v);
      SingleLinesTail(ps);
      RenderLineCount(ps[1..]);
      CountAppend(name + " = " + Text(v), "\n", '\n');
      CountAppend(name + " = ", Text(v), '\n');
      CountAppend(name, " = ", '\n');
      CountAppend(Line(name, v), Render(ps[1..]), '\n');
      CountAbsent(name, '\n');
      CountAbsent(Text(v), '\n');
    }
  }

  /** With distinct names, as a parameter dictionary has, that is one line per distinct name. */
  lemma ReportLinePerName(ps: Dict<Value>)
    requires SingleLines(ps) && DistinctKeys(ps)
    ensures Count(Render(ps), '\n') == |ToMap(ps).Keys|
  {
    RenderLineCount(ps);
    DistinctKeysCount(ps);
  }

  /** One line reads back as its name and the text of its value. */
  lemma LineRoundTrip(name: string, t: string)
    requires '=' !in name && '\n' !in name && '\n' !in t
    ensures var s := name + " = " + t + "\n";
            IndexOf(s, '\n') == |s| - 1 &&
            ParseLine(s[..|s| - 1]) == Some((name, t))
  {
    var s := name + " = " + t + "\n";
    var body := name + " = " + t;
    assert s[|s| - 1] == '\n';
    assert forall k :: 0 <= k < |s| - 1 ==> s[k] == body[k] != '\n';
    assert s[..|s| - 1] == body;
    assert body[|name| + 1] == '=';
    assert forall k :: 0 <= k < |name| + 1 ==> body[k] != '=';
    assert body[..|name|] == name;
    assert body[|name| + 3..] == t;
  }

  /** A report that starts with a well-formed line reads back as that line's entry, then the rest. */
  lemma ParseFirstLine(line: string, rest: string, entry: (string, string), tail: seq<(string, string)>)
    requires |line| > 0 && line[|line| - 1] == '\n'
    requires '\n' !in line[..|line| - 1]
    requires ParseLine(line[..|line| - 1]) == Some(entry)
    requires Parse(rest) == Some(tail)
    ensures Parse(line + rest) == Some([entry] + tail)
  {
    var s := line + rest;
    assert s[|line| - 1] == '\n';
    assert forall k :: 0 <= k < |line| - 1 ==> s[k] == line[..|line| - 1][k] != '\n';
    assert IndexOf(s, '\n') == |line| - 1;
    assert s[..|line| - 1] == line[..|line| - 1];
    assert s[|line|..] == rest;
  }

  lemma SingleLinesTail(ps: Dict<Value>)
    requires ps != [] && SingleLines(ps)
    ensures SingleLines(ps[1..])
  {
    forall k | 0 <= k < |ps[1..]| ensures '\n' !in ps[1..][k].0 && '\n' !in Text(ps[1..][k].1) {
      assert ps[1..][k] == ps[k + 1];
    }
  }

  lemma ReadableTail(ps: Dict<Value>)
    requires ps != [] && Readable(ps)
    ensures Readable(ps[1..])
  {
  }

  /** A readable report reads back as the parameters' names and value texts, in order. */
  lemma {:induction false} RenderRoundTrip(ps: Dict<Value>)
    requires Readable(ps)
    ensures Parse(Render(ps)) == Some(Shown(ps))
  {
    if ps != [] {
      var name, v := ps[0].0, ps[0].1;
      ReadableTail(ps);
      RenderRoundTrip(ps[1..]);
      LineRoundTrip(name, Text(v));
      var line := Line(name, v);
      assert line == name + " = " + Text(v) + "\n";
      ParseFirstLine(line, Render(ps[1..]), (name, Text(v)), Shown(ps[1..]));
      assert Shown(ps) == [(name, Text(v))] + Shown(ps[1..]);
    }
  }

  /** Parameters with plain names and int or bool values always give a readable report. */
  lemma NumbersReadable(ps: Dict<Value>)
    requires forall k :: 0 <= k < |ps| ==> '=' !in ps[k].0 && '\n' !in ps[k].0
    requires forall k :: 0 <= k < |ps| ==> ps[k].1.IntV? || ps[k].1.BoolV?
    ensures Readable(ps)
  {
    forall k | 0 <= k < |ps| ensures '\n' !in Text(ps[k].1) {
      NumberTextIsPlain(ps[k].1);
    }
  }

  /** A name holding `=` is still one line: `a=b = 1`. */
  lemma EqualsInNameIsOneLine()
    ensures !Readable([("a=b", IntV(1))])
    ensures SingleLines([("a=b", IntV(1))])
    ensures Count(Render([("a=b", IntV(1))]), '\n') == 1
  {
    NumberTextIsPlain(IntV(1));
    RenderLineCount([("a=b", IntV(1))]);
  }
}
