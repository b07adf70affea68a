/**
 * Detailed action names (gio/gaction.c): a name and an optional target value in
 * one string, printed and parsed back.
 */
module DetailedName {
  import opened Wrappers

  /** Values that are not strings; only their text matters. */
  type OtherValue(==, !new)

  datatype Value = StringValue(str: string) | Other(value: OtherValue)

  /** The text of values: g_variant_print with type annotations, and g_variant_parse. */
  datatype Text = Text(print_: Value -> string, parse: string -> Option<Value>)

  /** The one thing asked of it. */
  ghost predicate ParsesBack(text: Text)
  {
    forall v :: text.parse(text.print_(v)) == Some(v)
  }

  predicate NameChar(c: char)
  {
    'a' <= c <= 'z' || 'A' <= c <= 'Z' || '0' <= c <= '9' || c == '.' || c == '-'
  }

  ghost predicate ValidName(s: string)
  {
    s != [] && forall i :: 0 <= i < |s| ==> NameChar(s[i])
  }

  method NameIsValid(actionName: string) returns (valid: bool)
    ensures valid == ValidName(actionName)
    ensures
      valid <==> actionName != "" && forall i :: 0 <= i < |actionName| ==>
        var c := actionName[i];
        'a' <= c <= 'z' || 'A' <= c <= 'Z' || '0' <= c <= '9' || c == '.' || c == '-'
  {
    var i := 0;
    while i < |actionName|
      invariant 0 <= i <= |actionName| && forall k :: 0 <= k < i ==> NameChar(actionName[k])
    {
      if !NameChar(actionName[i]) {
        return false;
      }
      i := i + 1;
    }
    return i > 0;
  }

  predicate Separator(c: char) { c == ':' || c == ' ' || c == '(' || c == ')' }

  /** strcspn: how many characters there are before the first separator. */
  function BaseLength(s: string): (n: nat)
    ensures n <= |s| && forall i :: 0 <= i < n ==> !Separator(s[i])
    ensures n < |s| ==> Separator(s[n])
    ensures forall i :: 0 <= i < n ==> s[i] != ':' && s[i] != ' ' && s[i] != '(' && s[i] != ')'
    ensures n < |s| ==> s[n] == ':' || s[n] == ' ' || s[n] == '(' || s[n] == ')'
  {
    if s == [] || Separator(s[0]) then 0 else 1 + BaseLength(s[1..])
  }

  /** The name and the target; None for a string of invalid format. */
  function ParseDetailedName(text: Text, s: string): Option<(string, Option<Value>)>
  {
    if s == [] || s[0] == ' ' then None
    else
      var n := BaseLength(s);
      var target := s[n..];
      if target == [] then Some((s[..n], Option.None))
      else if target[0] == ' ' || target[0] == ')' then None
      else if target[0] == ':' then
        if |target| < 2 || target[1] != ':' then None
        else Some((s[..n], Some(StringValue(target[2..]))))
      else if target[|target| - 1] != ')' then None
      else match text.parse(target[1..|target| - 1])
        case None => None
        case Some(value) => Some((s[..n], Some(value)))
  }

  ghost function PrintedTarget(text: Text, v: Value): string
  {
    if v.StringValue? && ValidName(v.str) then "::" + v.str else "(" + text.print_(v) + ")"
  }

  ghost function Printed(text: Text, actionName: string, target: Option<Value>): string
  {
    actionName + if target.None? then "" else PrintedTarget(text, target.value)
  }

  method PrintDetailedName(text: Text, actionName: string, target: Option<Value>) returns (r: string)
    requires ValidName(actionName)
    ensures r == Printed(text, actionName, target)
    ensures target.None? ==> r == actionName
    ensures target.Some? && target.value.StringValue? && ValidName(target.value.str) ==> r == actionName + "::" + target.value.str
    ensures
      target.Some? && !(target.value.StringValue? && ValidName(target.value.str)) ==>
        r == actionName + "(" + text.print_(target.value) + ")"
  {
    if target.None? {
      return actionName;
    }
    if target.value.StringValue? {
      var valid := NameIsValid(target.value.str);
      if valid {
        return actionName + "::" + target.value.str;
      }
    }
    r := actionName;
    r := r + "(";
    r := r + text.print_(target.value);
    r := r + ")";
  }

  /** A name as far as parsing is concerned. */
  predicate Separable(name: string)
  {
    forall i :: 0 <= i < |name| ==> !Separator(name[i])
  }

  /** What can be parsed, at all. */
  predicate Begins(s: string) { s != [] && s[0] != ' ' }

  lemma Cut(name: string, rest: string)
    requires Separable(name) && (rest != [] ==> Separator(rest[0]))
    ensures BaseLength(name + rest) == |name| && (name + rest)[..|name|] == name && (name + rest)[|name|..] == rest
  {
    var s := name + rest;
    assert forall i :: 0 <= i < |name| ==> s[i] == name[i];
    assert rest != [] ==> s[|name|] == rest[0];
  }

  lemma ParsesName(text: Text, name: string)
    requires Separable(name) && Begins(name)
    ensures ParseDetailedName(text, name) == Some((name, Option.None))
  {
    Cut(name, []);
    assert name + [] == name;
  }

  lemma ParsesString(text: Text, name: string, str: string)
    requires Separable(name)
    ensures ParseDetailedName(text, name + ("::" + str)) == Some((name, Some(StringValue(str))))
  {
    Cut(name, "::" + str);
    assert ("::" + str)[2..] == str;
    assert name != [] ==> (name + ("::" + str))[0] == name[0];
  }

  lemma ParsesValue(text: Text, name: string, x: string)
    requires Separable(name)
    ensures
      ParseDetailedName(text, name + ("(" + x + ")"))
      == match text.parse(x) case None => None case Some(v) => Some((name, Some(v)))
  {
    var rest := "(" + x + ")";
    Cut(name, rest);
    assert rest[1..|rest| - 1] == x && rest[|rest| - 1] == ')';
    assert name != [] ==> (name + rest)[0] == name[0];
  }

  /** What a name and a target can be written as, for parsing. */
  ghost predicate Written(text: Text, s: string, name: string, target: Option<Value>)
  {
    match target
    case None => s == name
    case Some(v) =>
      || (v.StringValue? && s == name + ("::" + v.str))
      || (exists x :: WrittenAs(text, s, name, x, target))
  }

  predicate WrittenAs(text: Text, s: string, name: string, x: string, target: Option<Value>)
  {
    s == name + ("(" + x + ")") && text.parse(x) == target
  }

  lemma SplitString(rest: string)
    requires |rest| >= 2 && rest[0] == rest[1] == ':'
    ensures rest == "::" + rest[2..]
  {
  }

  lemma SplitValue(rest: string)
    requires |rest| >= 2 && rest[0] == '(' && rest[|rest| - 1] == ')'
    ensures rest == "(" + rest[1..|rest| - 1] + ")"
  {
  }

  lemma ParseGives(text: Text, s: string, name: string, target: Option<Value>)
    requires ParseDetailedName(text, s) == Some((name, target))
    ensures Begins(s) && Separable(name) && Written(text, s, name, target)
  {
    var rest := s[BaseLength(s)..];
    assert s == name + rest;
    if rest != [] && rest[0] == ':' {
      SplitString(rest);
    } else if rest != [] {
      SplitValue(rest);
      assert WrittenAs(text, s, name, rest[1..|rest| - 1], target);
    }
  }

  /** What parses: each of the three formats, for every name without a separator and not only for valid ones. */
  lemma ParseMeans(text: Text, s: string, name: string, target: Option<Value>)
    ensures
      ParseDetailedName(text, s) == Some((name, target))
      <==> s != "" && s[0] != ' ' && Separable(name) && Written(text, s, name, target)
  {
    if ParseDetailedName(text, s) == Some((name, target)) {
      ParseGives(text, s, name, target);
    }
    if Begins(s) && Separable(name) && Written(text, s, name, target) {
      if target.None? {
        ParsesName(text, name);
      } else if target.value.StringValue? && s == name + ("::" + target.value.str) {
        ParsesString(text, name, target.value.str);
      } else {
        var x :| WrittenAs(text, s, name, x, target);
        ParsesValue(text, name, x);
      }
    }
  }

  /** What is printed parses back. */
  lemma RoundTrip(text: Text, name: string, target: Option<Value>)
    requires ParsesBack(text) && ValidName(name)
    ensures ParseDetailedName(text, Printed(text, name, target)) == Some((name, target))
  {
    if target.None? {
      assert NameChar(name[0]);
      ParsesName(text, name);
    } else if target.value.StringValue? && ValidName(target.value.str) {
      ParsesString(text, name, target.value.str);
    } else {
      ParsesValue(text, name, text.print_(target.value));
    }
  }

  lemma PrintingIsInjective(text: Text, a: string, s: Option<Value>, b: string, t: Option<Value>)
    requires ParsesBack(text) && ValidName(a) && ValidName(b)
    requires Printed(text, a, s) == Printed(text, b, t)
    ensures a == b && s == t
  {
    RoundTrip(text, a, s);
    RoundTrip(text, b, t);
  }

  predicate Whitespace(c: char) { c == ' ' || c == '\t' || c == '\n' || c == '\r' || c == '\U{B}' || c == '\U{C}' }

  /** The names that the documentation lets through. */
  predicate DocumentedName(name: string)
  {
    name != [] && Separable(name) && forall i :: 0 <= i < |name| ==> !Whitespace(name[i])
  }

  /** The three formats of the documentation. */
  ghost predicate Documented(text: Text, s: string, name: string, target: Option<Value>)
  {
    && DocumentedName(name)
    && match target
       case None => s == name
       case Some(v) =>
         || (v.StringValue? && ValidName(v.str) && s == name + ("::" + v.str))
         || (exists x :: WrittenAs(text, s, name, x, target))
  }

  /**
   * Of the strings that parse, the documented ones are exactly those whose name is
   * not empty and has no whitespace, and whose target is a valid name if it follows
   * a double colon.
   */
  lemma ParsesDocumented(text: Text, s: string, name: string, target: Option<Value>)
    requires ParseDetailedName(text, s) == Some((name, target))
    ensures |name| <= |s|
    ensures
      Documented(text, s, name, target)
      <==>
      && name != "" && (forall i :: 0 <= i < |name| ==>
            var c := name[i];
            c != ' ' && c != '\t' && c != '\n' && c != '\r' && c != '\U{B}' && c != '\U{C}')
      && (|s| >= |name| + 2 && s[|name|] == ':' ==> ValidName(s[|name| + 2..]))
  {
    ParseGives(text, s, name, target);
    if target.Some? {
      if target.value.StringValue? && s == name + ("::" + target.value.str) {
        assert s[|name|] == ':' && s[|name| + 2..] == target.value.str;
        forall x
          ensures !WrittenAs(text, s, name, x, target)
        {
          assert (name + ("(" + x + ")"))[|name|] == '(';
        }
      } else {
        var x :| WrittenAs(text, s, name, x, target);
        assert s[|name|] == '(';
      }
    }
  }

  /** Some that are not documented: an empty name, and any text after the double colon. */
  lemma ParsesMoreThanDocumented(text: Text, name: string, str: string)
    requires Separable(name) && (name == [] || !ValidName(str))
    ensures
      && ParseDetailedName(text, name + ("::" + str)) == Some((name, Some(StringValue(str))))
      && !Documented(text, name + ("::" + str), name, Some(StringValue(str)))
  {
    var s := name + ("::" + str);
    ParsesString(text, name, str);
    ParsesDocumented(text, s, name, Some(StringValue(str)));
    assert s[|name|] == ':' && s[|name| + 2..] == str;
  }

  /** A name can also have any characters that are no separators. */
  lemma ParsesInvalidName(text: Text, name: string)
    requires name != [] && Separable(name) && !ValidName(name)
    ensures ParseDetailedName(text, name) == Some((name, Option.None))
  {
    ParsesName(text, name);
  }
}
