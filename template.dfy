/** Python's str.format restricted to what the DEFAULTS table uses: literal
    text, the escapes "{{" and "}}", and named replacement fields "{Name}"
    filled from keyword arguments. Any other use of a brace, and a name with
    no argument, is an error (ValueError or KeyError in Python), here None. */
module Template {
  import opened Text

  /** Index of the first c in s, or |s| when there is none. */
  function IndexOf(s: string, c: char): (k: nat)
    ensures k <= |s|
    ensures forall i :: 0 <= i < k ==> s[i] != c
    ensures k < |s| ==> s[k] == c
  {
    if s == [] || s[0] == c then 0 else 1 + IndexOf(s[1..], c)
  }

  function Prepend(s: string, o: Option<string>): Option<string> {
    match o
    case None => None
    case Some(t) => Some(s + t)
  }

  function Format(t: string, args: map<string, string>): Option<string>
    decreases |t|
  {
    if t == [] then Some("")
    else if t[0] == '{' then
      if |t| > 1 && t[1] == '{' then Prepend("{", Format(t[2..], args))
      else
        var k := IndexOf(t[1..], '}');
        if k == |t| - 1 then None
        else
          var name := t[1..k + 1];
          if name in args then Prepend(args[name], Format(t[k + 2..], args)) else None
    else if t[0] == '}' then
      if |t| > 1 && t[1] == '}' then Prepend("}", Format(t[2..], args)) else None
    else Prepend([t[0]], Format(t[1..], args))
  }

  predicate NoBraces(s: string) {
    forall i :: 0 <= i < |s| ==> s[i] != '{' && s[i] != '}'
  }

  /** Literal text without braces is copied through. */
  lemma {:induction false} FormatLiteral(lit: string, rest: string, args: map<string, string>)
    requires NoBraces(lit)
    ensures Format(lit + rest, args) == Prepend(lit, Format(rest, args))
  {
    var f := Format(rest, args);
    if lit == [] {
      assert lit + rest == rest;
      match f
      case None =>
      case Some(x) => assert lit + x == x;
    } else {
      assert (lit + rest)[0] == lit[0] && (lit + rest)[1..] == lit[1..] + rest;
      FormatLiteral(lit[1..], rest, args);
      match f
      case None =>
      case Some(x) => assert [lit[0]] + (lit[1..] + x) == lit + x;
    }
  }

  /** A field "{name}" is replaced by its argument. */
  lemma FormatField(name: string, rest: string, args: map<string, string>)
    requires NoBraces(name) && name in args
    ensures Format("{" + name + "}" + rest, args) == Prepend(args[name], Format(rest, args))
  {
    var t := "{" + name + "}" + rest;
    assert t[1..] == name + "}" + rest;
    assert IndexOf(t[1..], '}') == |name| by {
      var k := IndexOf(t[1..], '}');
      assert t[1..][|name|] == '}';
    }
    assert t[1..|name| + 1] == name;
    assert t[|name| + 2..] == rest;
  }

  /** Text without braces formats to itself. */
  lemma FormatPlain(lit: string, args: map<string, string>)
    requires NoBraces(lit)
    ensures Format(lit, args) == Some(lit)
  {
    FormatLiteral(lit, "", args);
    assert lit + "" == lit;
    assert Format("", args) == Some("");
  }

  /** Literal text followed by one field, in front of text that formats to x. */
  lemma FormatStep(lit: string, name: string, rest: string, x: string, args: map<string, string>)
    requires NoBraces(lit) && NoBraces(name) && name in args
    requires Format(rest, args) == Some(x)
    ensures Format(lit + ("{" + name + "}" + rest), args) == Some(lit + (args[name] + x))
  {
    FormatField(name, rest, args);
    FormatLiteral(lit, "{" + name + "}" + rest, args);
  }

  /** Two literal-and-field steps at once. */
  lemma FormatPair(lit1: string, name1: string, lit2: string, name2: string, rest: string, x: string,
                   args: map<string, string>)
    requires NoBraces(lit1) && NoBraces(name1) && name1 in args
    requires NoBraces(lit2) && NoBraces(name2) && name2 in args
    requires Format(rest, args) == Some(x)
    ensures Format(lit1 + ("{" + name1 + "}" + (lit2 + ("{" + name2 + "}" + rest))), args)
         == Some(lit1 + (args[name1] + (lit2 + (args[name2] + x))))
  {
    FormatStep(lit2, name2, rest, x, args);
    FormatStep(lit1, name1, lit2 + ("{" + name2 + "}" + rest), lit2 + (args[name2] + x), args);
  }
}
