/** Prompt templates, from pkg/prompts/prompts.go. */
module Prompts {

  datatype PromptArgument = PromptArgument(name: string, required: bool)

  datatype Template = Template(role: string, content: string)

  datatype Prompt = Prompt(name: string, description: string, arguments: seq<PromptArgument>, templates: seq<Template>)

  datatype Message = Message(role: string, text: string)

  datatype CallResult = Called(description: string, messages: seq<Message>) | MissingArgument(name: string)

  type Values = map<string, string>

  /** strings.ReplaceAll: from the left, and what was put in is not looked at again. */
  function ReplaceAll(s: string, placeholder: string, value: string): string
    requires placeholder != ""
  {
    if s == "" then ""
    else if placeholder <= s then value + ReplaceAll(s[|placeholder|..], placeholder, value)
    else [s[0]] + ReplaceAll(s[1..], placeholder, value)
  }

  function Placeholder(name: string): string
  {
    "{{" + name + "}}"
  }

  /** One argument after the other. */
  function Substitute(content: string, args: seq<PromptArgument>, values: Values): string
    decreases args
  {
    if args == [] then content
    else
      var arg := args[0];
      var next := if arg.name in values then ReplaceAll(content, Placeholder(arg.name), values[arg.name])
                  else if !arg.required then ReplaceAll(content, Placeholder(arg.name), "")
                  else content;
      Substitute(next, args[1..], values)
  }

  method SubstituteArguments(content: string, args: seq<PromptArgument>, values: Values) returns (result: string)
    ensures result == Substitute(content, args, values)
  {
    result := content;
    for i := 0 to |args|
      invariant Substitute(result, args[i..], values) == Substitute(content, args, values)
    {
      var placeholder := "{{" + args[i].name + "}}";
      if args[i].name in values {
        result := ReplaceAll(result, placeholder, values[args[i].name]);
      } else if !args[i].required {
        result := ReplaceAll(result, placeholder, "");
      }
    }
  }

  // What a template means: its holes are filled all at once.

  datatype Part = Text(text: string) | Hole(name: string)

  function PartString(p: Part): string
  {
    match p
    case Text(t) => t
    case Hole(n) => Placeholder(n)
  }

  function Content(parts: seq<Part>): string
  {
    if parts == [] then "" else PartString(parts[0]) + Content(parts[1..])
  }

  predicate BraceFree(s: string)
  {
    '{' !in s && '}' !in s
  }

  ghost predicate Plain(parts: seq<Part>)
  {
    forall p :: p in parts ==> BraceFree(if p.Text? then p.text else p.name)
  }

  ghost predicate PlainArguments(args: seq<PromptArgument>, values: Values)
  {
    forall a :: a in args ==> BraceFree(a.name) && (a.name in values ==> BraceFree(values[a.name]))
  }

  ghost predicate Declared(n: string, args: seq<PromptArgument>)
  {
    exists a :: a in args && a.name == n
  }

  ghost predicate Optional(n: string, args: seq<PromptArgument>)
  {
    PromptArgument(n, false) in args
  }

  /** A hole takes the value supplied for a declared argument, and nothing for an optional one
      that is not supplied; any other hole stays. */
  ghost function FillHole(n: string, args: seq<PromptArgument>, values: Values): Part
  {
    if Declared(n, args) && n in values then Text(values[n])
    else if Optional(n, args) && n !in values then Text("")
    else Hole(n)
  }

  ghost function FillPart(p: Part, args: seq<PromptArgument>, values: Values): Part
  {
    match p
    case Text(_) => p
    case Hole(n) => FillHole(n, args, values)
  }

  ghost function Fill(parts: seq<Part>, args: seq<PromptArgument>, values: Values): seq<Part>
  {
    seq(|parts|, i requires 0 <= i < |parts| => FillPart(parts[i], args, values))
  }

  // Replacing in a string that does not hold the placeholder.

  lemma {:induction false} ReplaceSkips(t: string, rest: string, placeholder: string, value: string)
    requires placeholder != "" && placeholder[0] !in t
    ensures ReplaceAll(t + rest, placeholder, value) == t + ReplaceAll(rest, placeholder, value)
    decreases t
  {
    if t == "" {
      assert t + rest == rest;
    } else {
      assert (t + rest)[0] == t[0] && (t + rest)[1..] == t[1..] + rest;
      ReplaceSkips(t[1..], rest, placeholder, value);
      assert [t[0]] + (t[1..] + ReplaceAll(rest, placeholder, value)) == t + ReplaceAll(rest, placeholder, value);
    }
  }

  /** A placeholder does not start another one unless it is the same. */
  lemma PlaceholdersDiffer(m: string, n: string, rest: string)
    requires BraceFree(m) && BraceFree(n) && Placeholder(n) <= Placeholder(m) + rest
    ensures m == n
  {
    var p, s := Placeholder(n), Placeholder(m) + rest;
    assert forall i :: 0 <= i < |p| ==> p[i] == s[i];
    assert p[|n| + 2] == '}' && s[|m| + 2] == '}';
    assert forall i :: 0 <= i < |n| ==> p[i + 2] == n[i];
    assert forall i :: 0 <= i < |m| ==> s[i + 2] == m[i];
  }

  lemma ReplaceHole(m: string, rest: string, n: string, value: string)
    requires BraceFree(m) && BraceFree(n)
    ensures ReplaceAll(Placeholder(m) + rest, Placeholder(n), value)
            == (if m == n then value else Placeholder(m)) + ReplaceAll(rest, Placeholder(n), value)
  {
    var s, hole := Placeholder(m) + rest, Placeholder(n);
    if m == n {
      assert s[|hole|..] == rest;
    } else {
      if hole <= s {
        PlaceholdersDiffer(m, n, rest);
      }
      var tail := m + "}}";
      assert s[1..] == ['{'] + (tail + rest);
      assert s[1..][1..] == tail + rest;
      assert s[1..][1] != '{';
      assert hole[1] == '{';
      ReplaceSkips(tail, rest, hole, value);
      var r := ReplaceAll(rest, hole, value);
      assert ['{'] + (['{'] + (tail + r)) == Placeholder(m) + r;
    }
  }

  ghost function Plug(parts: seq<Part>, n: string, value: string): seq<Part>
  {
    seq(|parts|, i requires 0 <= i < |parts| => if parts[i] == Hole(n) then Text(value) else parts[i])
  }

  lemma PlugFirst(parts: seq<Part>, n: string, value: string)
    requires parts != []
    ensures Content(Plug(parts, n, value))
            == (if parts[0] == Hole(n) then value else PartString(parts[0])) + Content(Plug(parts[1..], n, value))
  {
    assert Plug(parts, n, value)[1..] == Plug(parts[1..], n, value);
  }

  lemma ReplaceFirst(p: Part, rest: string, n: string, value: string)
    requires BraceFree(if p.Text? then p.text else p.name) && BraceFree(n)
    ensures ReplaceAll(PartString(p) + rest, Placeholder(n), value)
            == (if p == Hole(n) then value else PartString(p)) + ReplaceAll(rest, Placeholder(n), value)
  {
    match p
    case Text(t) => ReplaceSkips(t, rest, Placeholder(n), value);
    case Hole(m) => ReplaceHole(m, rest, n, value);
  }

  lemma {:induction false} ReplacePlugs(parts: seq<Part>, n: string, value: string)
    requires Plain(parts) && BraceFree(n)
    ensures ReplaceAll(Content(parts), Placeholder(n), value) == Content(Plug(parts, n, value))
    decreases parts
  {
    if parts != [] {
      ReplaceFirst(parts[0], Content(parts[1..]), n, value);
      ReplacePlugs(parts[1..], n, value);
      PlugFirst(parts, n, value);
    }
  }

  lemma FillAfterPlug(parts: seq<Part>, args: seq<PromptArgument>, values: Values, value: string)
    requires args != []
    requires args[0].name in values || !args[0].required
    requires value == if args[0].name in values then values[args[0].name] else ""
    ensures Fill(Plug(parts, args[0].name, value), args[1..], values) == Fill(parts, args, values)
  {
    HeadDeclares(args);
  }

  lemma HeadDeclares(args: seq<PromptArgument>)
    requires args != []
    ensures forall n :: Declared(n, args) <==> n == args[0].name || Declared(n, args[1..])
    ensures forall n :: Optional(n, args) <==> args[0] == PromptArgument(n, false) || Optional(n, args[1..])
  {
    assert args == [args[0]] + args[1..];
    forall n ensures Declared(n, args) <==> n == args[0].name || Declared(n, args[1..]) {
      if n == args[0].name {
        assert args[0] in args;
      }
    }
  }

  lemma FillSkips(parts: seq<Part>, args: seq<PromptArgument>, values: Values)
    requires args != [] && args[0].name !in values && args[0].required
    ensures Fill(parts, args[1..], values) == Fill(parts, args, values)
  {
    HeadDeclares(args);
  }

  /** Substituting one argument after the other fills all holes at once. */
  lemma {:induction false} SubstituteFills(parts: seq<Part>, args: seq<PromptArgument>, values: Values)
    requires Plain(parts) && PlainArguments(args, values)
    ensures Substitute(Content(parts), args, values) == Content(Fill(parts, args, values))
    decreases args
  {
    if args == [] {
      assert Fill(parts, args, values) == parts;
    } else {
      var arg := args[0];
      if arg.name in values || !arg.required {
        var value := if arg.name in values then values[arg.name] else "";
        ReplacePlugs(parts, arg.name, value);
        FillAfterPlug(parts, args, values, value);
        SubstituteFills(Plug(parts, arg.name, value), args[1..], values);
      } else {
        FillSkips(parts, args, values);
        SubstituteFills(parts, args[1..], values);
      }
    }
  }

  lemma SameArgumentsFillAlike(p: Part, args: seq<PromptArgument>, args': seq<PromptArgument>, values: Values)
    requires forall a :: a in args <==> a in args'
    ensures FillPart(p, args, values) == FillPart(p, args', values)
  {
  }

  /** Neither the order of the arguments nor repeating one matters. */
  lemma OrderDoesNotMatter(parts: seq<Part>, args: seq<PromptArgument>, args': seq<PromptArgument>, values: Values)
    requires Plain(parts) && PlainArguments(args, values)
    requires forall a :: a in args <==> a in args'
    ensures Substitute(Content(parts), args, values) == Substitute(Content(parts), args', values)
  {
    SubstituteFills(parts, args, values);
    SubstituteFills(parts, args', values);
    forall p ensures FillPart(p, args, values) == FillPart(p, args', values) {
      SameArgumentsFillAlike(p, args, args', values);
    }
    assert Fill(parts, args, values) == Fill(parts, args', values);
  }

  /** A value that holds a placeholder is substituted in again if its argument comes later. */
  lemma ValuesAreSubstitutedAgain() returns (x: PromptArgument, y: PromptArgument, values: Values)
    ensures Substitute("{{x}}", [x, y], values) == "v" && Substitute("{{x}}", [y, x], values) == "{{y}}"
  {
    x, y, values := PromptArgument("x", true), PromptArgument("y", true), map["x" := "{{y}}", "y" := "v"];
    SubstituteHole("x", x, [y], values);
    SubstituteHole("y", y, [], values);
    SubstituteHole("x", y, [x], values);
    SubstituteHole("x", x, [], values);
    assert [x, y] == [x] + [y] && [y, x] == [y] + [x] && [y] == [y] + [] && [x] == [x] + [];
    assert Placeholder("x") == "{{x}}" && Placeholder("y") == "{{y}}";
  }

  lemma SubstituteHole(m: string, a: PromptArgument, rest: seq<PromptArgument>, values: Values)
    requires BraceFree(m) && BraceFree(a.name) && a.name in values
    ensures Substitute(Placeholder(m), [a] + rest, values)
            == Substitute(if m == a.name then values[m] else Placeholder(m), rest, values)
  {
    ReplaceHole(m, "", a.name, values[a.name]);
    assert Placeholder(m) + "" == Placeholder(m) && values[a.name] + "" == values[a.name];
    assert ([a] + rest)[1..] == rest;
  }

  /** The placeholder stands somewhere in the text. */
  ghost predicate Occurs(placeholder: string, s: string)
  {
    exists i :: 0 <= i <= |s| && placeholder <= s[i..]
  }

  lemma OccursLater(placeholder: string, s: string)
    requires s != ""
    ensures Occurs(placeholder, s) <==> placeholder <= s || Occurs(placeholder, s[1..])
  {
    assert s[0..] == s;
    assert forall i :: 0 < i <= |s| ==> s[i..] == s[1..][i - 1..];
    assert forall i :: 0 <= i <= |s| - 1 ==> s[1..][i..] == s[i + 1..];
  }

  /** Replacing changes the length by the same amount at every place. */
  lemma {:induction false} ReplaceLength(s: string, placeholder: string, value: string)
    requires placeholder != ""
    ensures |value| >= |placeholder| ==> |ReplaceAll(s, placeholder, value)| >= |s|
    ensures |value| <= |placeholder| ==> |ReplaceAll(s, placeholder, value)| <= |s|
    decreases s
  {
    if s != "" {
      if placeholder <= s {
        ReplaceLength(s[|placeholder|..], placeholder, value);
      } else {
        ReplaceLength(s[1..], placeholder, value);
      }
    }
  }

  /** Replacing leaves a text as it is exactly when the placeholder is not in it, or is replaced by
      itself. */
  lemma {:induction false} ReplaceIsIdentity(s: string, placeholder: string, value: string)
    requires placeholder != ""
    ensures ReplaceAll(s, placeholder, value) == s <==> !Occurs(placeholder, s) || value == placeholder
    decreases s
  {
    if s != "" {
      OccursLater(placeholder, s);
      if placeholder <= s {
        var rest := s[|placeholder|..];
        assert s == placeholder + rest;
        ReplaceIsIdentity(rest, placeholder, value);
        ReplaceLength(rest, placeholder, value);
        var r := ReplaceAll(rest, placeholder, value);
        if value + r == s {
          assert |value| == |placeholder|;
          assert (value + r)[..|value|] == value && s[..|placeholder|] == placeholder;
        }
      } else {
        ReplaceIsIdentity(s[1..], placeholder, value);
        var r := ReplaceAll(s[1..], placeholder, value);
        assert ([s[0]] + r)[1..] == r && s == [s[0]] + s[1..];
      }
    }
  }

  /** What an argument puts in the place of its holes, if it puts anything. */
  function Supplied(a: PromptArgument, values: Values): string
  {
    if a.name in values then values[a.name] else if a.required then Placeholder(a.name) else ""
  }

  lemma SubstituteTwo(content: string, a: PromptArgument, b: PromptArgument, values: Values)
    ensures Substitute(content, [a, b], values)
            == ReplaceAll(ReplaceAll(content, Placeholder(a.name), Supplied(a, values)), Placeholder(b.name), Supplied(b, values))
  {
    assert [a, b][1..] == [b] && [b][1..] == [];
    ReplaceIsIdentity(content, Placeholder(a.name), Placeholder(a.name));
    var next := ReplaceAll(content, Placeholder(a.name), Supplied(a, values));
    ReplaceIsIdentity(next, Placeholder(b.name), Placeholder(b.name));
    assert Substitute(content, [a, b], values) == Substitute(next, [b], values);
  }

  /** For a plain template with no holes of the second argument, and any values: the order
      of the two does not matter exactly when the template, filled, holds no placeholder of the
      other, or the other puts its own placeholder in its place. */
  lemma OrderWithoutHolesExactly(parts: seq<Part>, a: PromptArgument, b: PromptArgument, values: Values)
    requires Plain(parts) && BraceFree(a.name) && BraceFree(b.name) && Hole(b.name) !in parts
    ensures var filled := Content(Plug(parts, a.name, Supplied(a, values)));
            Substitute(Content(parts), [a, b], values) == Substitute(Content(parts), [b, a], values)
            <==> !Occurs(Placeholder(b.name), filled) || Supplied(b, values) == Placeholder(b.name)
  {
    var content := Content(parts);
    var filled := Content(Plug(parts, a.name, Supplied(a, values)));
    SubstituteTwo(content, a, b, values);
    SubstituteTwo(content, b, a, values);
    ReplacePlugs(parts, a.name, Supplied(a, values));
    ReplacePlugs(parts, b.name, Supplied(b, values));
    assert Plug(parts, b.name, Supplied(b, values)) == parts;
    ReplaceIsIdentity(filled, Placeholder(b.name), Supplied(b, values));
  }

  // Two arguments whose values may hold anything. A placeholder cannot overlap another one, so all
  // its occurrences in a text are replaced, those in holes and those that came with a value.

  /** A placeholder does not start inside another. */
  lemma NotInside(n: string, i: nat, rest: string)
    requires BraceFree(n) && 0 < i < |Placeholder(n)|
    ensures !(Placeholder(n) <= (Placeholder(n) + rest)[i..])
  {
    var p := Placeholder(n);
    var s := (p + rest)[i..];
    assert s[0] == p[i] && (i == 1 ==> s[1] == p[2]);
    assert forall k :: 2 <= k < |p| ==> p[k] == if k - 2 < |n| then n[k - 2] else '}';
    assert p[0] == '{' && p[1] == '{';
  }

  /** Nor does one end inside another. */
  lemma NotAcross(n: string, u: string, rest: string)
    requires BraceFree(n) && 0 < |u| < |Placeholder(n)|
    ensures !(Placeholder(n) <= u + (Placeholder(n) + rest))
  {
    var p := Placeholder(n);
    var s := u + (p + rest);
    assert s[|u|] == '{' && s[|u| + 1] == '{';
    assert forall k :: 2 <= k < |p| ==> p[k] == if k - 2 < |n| then n[k - 2] else '}';
  }

  lemma StartsInText(n: string, t: string, rest: string)
    requires BraceFree(n) && t != ""
    ensures Placeholder(n) <= t + (Placeholder(n) + rest) <==> Placeholder(n) <= t
  {
    var p := Placeholder(n);
    var s := t + (p + rest);
    if |t| < |p| {
      NotAcross(n, t, rest);
    } else {
      assert s[..|p|] == t[..|p|];
    }
  }

  lemma {:induction false} ReplaceBeyond(t: string, n: string, rest: string, value: string)
    requires BraceFree(n)
    ensures var p := Placeholder(n);
            ReplaceAll(t + (p + rest), p, value) == ReplaceAll(t, p, value) + (value + ReplaceAll(rest, p, value))
    decreases t
  {
    var p := Placeholder(n);
    var s := t + (p + rest);
    var r := value + ReplaceAll(rest, p, value);
    if t == "" {
      assert s == p + rest && s[|p|..] == rest;
    } else {
      StartsInText(n, t, rest);
      if p <= t {
        assert s[|p|..] == t[|p|..] + (p + rest);
        ReplaceBeyond(t[|p|..], n, rest, value);
        assert value + (ReplaceAll(t[|p|..], p, value) + r) == value + ReplaceAll(t[|p|..], p, value) + r;
      } else {
        assert s[0] == t[0] && s[1..] == t[1..] + (p + rest);
        ReplaceBeyond(t[1..], n, rest, value);
        assert [t[0]] + (ReplaceAll(t[1..], p, value) + r) == [t[0]] + ReplaceAll(t[1..], p, value) + r;
      }
    }
  }

  /** How often the placeholder stands in the text. */
  function Occurrences(placeholder: string, s: string): nat
  {
    if s == "" then 0 else (if placeholder <= s then 1 else 0) + Occurrences(placeholder, s[1..])
  }

  lemma {:induction false} OccursCounted(placeholder: string, s: string)
    requires placeholder != ""
    ensures Occurs(placeholder, s) <==> Occurrences(placeholder, s) > 0
    decreases s
  {
    if s != "" {
      OccursLater(placeholder, s);
      OccursCounted(placeholder, s[1..]);
    }
  }

  lemma {:induction false} CountInside(n: string, i: nat, rest: string)
    requires BraceFree(n) && 0 < i <= |Placeholder(n)|
    ensures Occurrences(Placeholder(n), (Placeholder(n) + rest)[i..]) == Occurrences(Placeholder(n), rest)
    decreases |Placeholder(n)| - i
  {
    var p := Placeholder(n);
    if i == |p| {
      assert (p + rest)[i..] == rest;
    } else {
      NotInside(n, i, rest);
      CountInside(n, i + 1, rest);
      assert (p + rest)[i..][1..] == (p + rest)[i + 1..];
    }
  }

  lemma {:induction false} CountBeyond(t: string, n: string, rest: string)
    requires BraceFree(n)
    ensures var p := Placeholder(n);
            Occurrences(p, t + (p + rest)) == Occurrences(p, t) + 1 + Occurrences(p, rest)
    decreases t
  {
    var p := Placeholder(n);
    var s := t + (p + rest);
    if t == "" {
      assert s == p + rest;
      CountInside(n, 1, rest);
    } else {
      StartsInText(n, t, rest);
      assert s[1..] == t[1..] + (p + rest);
      CountBeyond(t[1..], n, rest);
    }
  }

  // A template as what stands between the holes of one argument.

  function Pieces(parts: seq<Part>, n: string): (pieces: seq<string>)
    ensures pieces != []
  {
    if parts == [] then [""]
    else
      var later := Pieces(parts[1..], n);
      if parts[0] == Hole(n) then [""] + later else [PartString(parts[0]) + later[0]] + later[1..]
  }

  function Joined(pieces: seq<string>, between: string): string
    requires pieces != []
  {
    if |pieces| == 1 then pieces[0] else pieces[0] + (between + Joined(pieces[1..], between))
  }

  function HoleCount(parts: seq<Part>, n: string): nat
  {
    if parts == [] then 0 else (if parts[0] == Hole(n) then 1 else 0) + HoleCount(parts[1..], n)
  }

  lemma PutBefore(t: string, pieces: seq<string>, between: string)
    requires pieces != []
    ensures Joined([t + pieces[0]] + pieces[1..], between) == t + Joined(pieces, between)
  {
    var longer := [t + pieces[0]] + pieces[1..];
    assert longer[1..] == pieces[1..];
    if |pieces| > 1 {
      var r := between + Joined(pieces[1..], between);
      assert (t + pieces[0]) + r == t + (pieces[0] + r);
    }
  }

  lemma {:induction false} PiecesJoin(parts: seq<Part>, n: string, value: string)
    ensures |Pieces(parts, n)| == HoleCount(parts, n) + 1
    ensures Content(Plug(parts, n, value)) == Joined(Pieces(parts, n), value)
    decreases parts
  {
    if parts == [] {
      assert Plug(parts, n, value) == [];
    } else {
      PiecesJoin(parts[1..], n, value);
      PlugFirst(parts, n, value);
      var later := Pieces(parts[1..], n);
      if parts[0] == Hole(n) {
        assert ([""] + later)[1..] == later;
        assert "" + (value + Joined(later, value)) == value + Joined(later, value);
      } else {
        PutBefore(PartString(parts[0]), later, value);
      }
    }
  }

  function EachReplaced(pieces: seq<string>, placeholder: string, value: string): (r: seq<string>)
    requires placeholder != ""
    ensures |r| == |pieces|
  {
    if pieces == [] then [] else [ReplaceAll(pieces[0], placeholder, value)] + EachReplaced(pieces[1..], placeholder, value)
  }

  function CountAll(pieces: seq<string>, placeholder: string): nat
  {
    if pieces == [] then 0 else Occurrences(placeholder, pieces[0]) + CountAll(pieces[1..], placeholder)
  }

  lemma {:induction false} ReplaceJoined(pieces: seq<string>, n: string, value: string)
    requires pieces != [] && BraceFree(n)
    ensures var p := Placeholder(n);
            ReplaceAll(Joined(pieces, p), p, value) == Joined(EachReplaced(pieces, p, value), value)
    ensures var p := Placeholder(n); Occurrences(p, Joined(pieces, p)) == CountAll(pieces, p) + |pieces| - 1
    decreases pieces
  {
    var p := Placeholder(n);
    var each := EachReplaced(pieces, p, value);
    if |pieces| == 1 {
      assert each == [ReplaceAll(pieces[0], p, value)];
    } else {
      assert each[1..] == EachReplaced(pieces[1..], p, value);
      ReplaceJoined(pieces[1..], n, value);
      ReplaceBeyond(pieces[0], n, Joined(pieces[1..], p), value);
      CountBeyond(pieces[0], n, Joined(pieces[1..], p));
    }
  }

  /** The pieces do not hold the placeholder, or it is replaced by itself. */
  ghost predicate Undisturbed(pieces: seq<string>, placeholder: string, value: string)
  {
    CountAll(pieces, placeholder) == 0 || value == placeholder
  }

  lemma PieceIsIdentity(piece: string, placeholder: string, value: string)
    requires placeholder != ""
    ensures ReplaceAll(piece, placeholder, value) == piece <==> Occurrences(placeholder, piece) == 0 || value == placeholder
  {
    ReplaceIsIdentity(piece, placeholder, value);
    OccursCounted(placeholder, piece);
  }

  lemma {:induction false} JoinedLength(pieces: seq<string>, placeholder: string, value: string, between: string)
    requires pieces != [] && placeholder != ""
    ensures var r, s := Joined(EachReplaced(pieces, placeholder, value), between), Joined(pieces, between);
            && (|value| >= |placeholder| ==> |r| >= |s|) && (|value| <= |placeholder| ==> |r| <= |s|)
    decreases pieces
  {
    var each := EachReplaced(pieces, placeholder, value);
    ReplaceLength(pieces[0], placeholder, value);
    if |pieces| > 1 {
      assert each[1..] == EachReplaced(pieces[1..], placeholder, value);
      JoinedLength(pieces[1..], placeholder, value, between);
    }
  }

  lemma SplitEqual(a: string, b: string, r: string, s: string)
    requires |a| == |b| && a + r == b + s
    ensures a == b && r == s
  {
    assert (a + r)[..|a|] == a && (b + s)[..|b|] == b;
    assert (a + r)[|a|..] == r && (b + s)[|b|..] == s;
  }

  /** Two parts that both get no shorter, or both no longer, and are the same together, are the same. */
  lemma SameParts(a: string, b: string, r: string, s: string)
    requires (|a| >= |b| && |r| >= |s|) || (|a| <= |b| && |r| <= |s|)
    ensures a + r == b + s <==> a == b && r == s
  {
    if a + r == b + s {
      assert |a| + |r| == |b| + |s|;
      SplitEqual(a, b, r, s);
    }
  }

  lemma {:induction false} JoinedSame(pieces: seq<string>, placeholder: string, value: string)
    requires pieces != [] && placeholder != ""
    ensures Joined(EachReplaced(pieces, placeholder, value), value) == Joined(pieces, value)
            <==> Undisturbed(pieces, placeholder, value)
    decreases pieces
  {
    var each := EachReplaced(pieces, placeholder, value);
    PieceIsIdentity(pieces[0], placeholder, value);
    if |pieces| == 1 {
      assert CountAll(pieces, placeholder) == Occurrences(placeholder, pieces[0]) + CountAll([], placeholder) by {
        assert pieces[1..] == [];
      }
    } else {
      var r, s := Joined(each[1..], value), Joined(pieces[1..], value);
      assert each[1..] == EachReplaced(pieces[1..], placeholder, value);
      JoinedSame(pieces[1..], placeholder, value);
      ReplaceLength(pieces[0], placeholder, value);
      JoinedLength(pieces[1..], placeholder, value, value);
      SameParts(each[0], pieces[0], value + r, value + s);
      SameParts(value, value, r, s);
    }
  }

  /** Replacing the placeholder of a name in a template with any texts fills its holes and nothing
      else exactly when the placeholder stands in no other place, or is replaced by itself. */
  lemma ReplaceFillsExactly(parts: seq<Part>, n: string, value: string)
    requires BraceFree(n)
    ensures ReplaceAll(Content(parts), Placeholder(n), value) == Content(Plug(parts, n, value))
            <==> Occurrences(Placeholder(n), Content(parts)) == HoleCount(parts, n) || value == Placeholder(n)
  {
    var p, pieces := Placeholder(n), Pieces(parts, n);
    PiecesJoin(parts, n, value);
    PiecesJoin(parts, n, p);
    PlugAsIs(parts, n);
    ReplaceJoined(pieces, n, value);
    JoinedSame(pieces, p, value);
  }

  lemma {:induction false} PlugAsIs(parts: seq<Part>, n: string)
    ensures Content(Plug(parts, n, Placeholder(n))) == Content(parts)
    decreases parts
  {
    if parts == [] {
      assert Plug(parts, n, Placeholder(n)) == [];
    } else {
      PlugFirst(parts, n, Placeholder(n));
      PlugAsIs(parts[1..], n);
    }
  }

  /** The template with one argument filled in, holes of the other left. */
  ghost function FilledWith(parts: seq<Part>, a: PromptArgument, values: Values): seq<Part>
  {
    Plug(parts, a.name, Supplied(a, values))
  }

  lemma {:induction false} FillIsPlug(parts: seq<Part>, a: PromptArgument, b: PromptArgument, values: Values)
    requires a.name != b.name
    ensures Content(Fill(parts, [a, b], values)) == Content(FilledWith(FilledWith(parts, a, values), b, values))
    decreases parts
  {
    var plugged := FilledWith(FilledWith(parts, a, values), b, values);
    if parts == [] {
      assert plugged == [] && Fill(parts, [a, b], values) == [];
    } else {
      FillIsPlug(parts[1..], a, b, values);
      assert plugged[1..] == FilledWith(FilledWith(parts[1..], a, values), b, values);
      assert Fill(parts, [a, b], values)[1..] == Fill(parts[1..], [a, b], values);
      FirstFilled(parts[0], a, b, values);
    }
  }

  lemma FirstFilled(part: Part, a: PromptArgument, b: PromptArgument, values: Values)
    requires a.name != b.name
    ensures PartString(FillPart(part, [a, b], values))
            == (if part == Hole(a.name) then Supplied(a, values) else if part == Hole(b.name) then Supplied(b, values)
                else PartString(part))
  {
    var args := [a, b];
    assert args[0] in args && args[1] in args;
    assert forall c :: c in args ==> c == a || c == b;
  }

  /** The values of two arguments do not get in each other's way: with `a` filled in, the placeholder
      of `b` stands in the holes of `b` alone, or is replaced by itself. */
  ghost predicate Apart(parts: seq<Part>, a: PromptArgument, b: PromptArgument, values: Values)
  {
    || Occurrences(Placeholder(b.name), Content(FilledWith(parts, a, values))) == HoleCount(parts, b.name)
    || Supplied(b, values) == Placeholder(b.name)
  }

  lemma {:induction false} SameHoles(parts: seq<Part>, n: string, value: string, m: string)
    requires m != n
    ensures HoleCount(Plug(parts, n, value), m) == HoleCount(parts, m)
    decreases parts
  {
    if parts != [] {
      SameHoles(parts[1..], n, value, m);
      assert Plug(parts, n, value)[1..] == Plug(parts[1..], n, value);
    }
  }

  /** With two arguments and any values, a plain template has its holes filled all at once exactly
      when the value filled in first does not bring a placeholder of the other argument along. */
  lemma SubstituteTwoFillsExactly(parts: seq<Part>, a: PromptArgument, b: PromptArgument, values: Values)
    requires Plain(parts) && BraceFree(a.name) && BraceFree(b.name) && a.name != b.name
    ensures Substitute(Content(parts), [a, b], values) == Content(Fill(parts, [a, b], values)) <==> Apart(parts, a, b, values)
  {
    SubstituteTwo(Content(parts), a, b, values);
    ReplacePlugs(parts, a.name, Supplied(a, values));
    FillIsPlug(parts, a, b, values);
    ReplaceFillsExactly(FilledWith(parts, a, values), b.name, Supplied(b, values));
    SameHoles(parts, a.name, Supplied(a, values), b.name);
  }

  /** Both orders of the two arguments fill all holes at once, and so agree, exactly when neither
      value brings a placeholder of the other argument along. */
  lemma OrderOfTwoExactly(parts: seq<Part>, a: PromptArgument, b: PromptArgument, values: Values)
    requires Plain(parts) && BraceFree(a.name) && BraceFree(b.name) && a.name != b.name
    ensures && Substitute(Content(parts), [a, b], values) == Content(Fill(parts, [a, b], values))
            && Substitute(Content(parts), [b, a], values) == Content(Fill(parts, [a, b], values))
            <==> Apart(parts, a, b, values) && Apart(parts, b, a, values)
  {
    SubstituteTwoFillsExactly(parts, a, b, values);
    SubstituteTwoFillsExactly(parts, b, a, values);
    forall p ensures FillPart(p, [a, b], values) == FillPart(p, [b, a], values) {
      SameArgumentsFillAlike(p, [a, b], [b, a], values);
    }
    assert Fill(parts, [a, b], values) == Fill(parts, [b, a], values);
  }

  // The handler.

  predicate Missing(a: PromptArgument, values: Values)
  {
    a.required && a.name !in values
  }

  ghost predicate FirstMissing(args: seq<PromptArgument>, values: Values, i: nat)
  {
    i < |args| && Missing(args[i], values) && forall j :: 0 <= j < i ==> !Missing(args[j], values)
  }

  method FindMissing(args: seq<PromptArgument>, values: Values) returns (i: nat)
    ensures i <= |args|
    ensures if i < |args| then FirstMissing(args, values, i) else forall a :: a in args ==> !Missing(a, values)
  {
    for k := 0 to |args|
      invariant forall j :: 0 <= j < k ==> !Missing(args[j], values)
    {
      if args[k].required {
        if args[k].name !in values {
          return k;
        }
      }
    }
    i := |args|;
  }

  method RenderMessages(prompt: Prompt, values: Values) returns (messages: seq<Message>)
    ensures |messages| == |prompt.templates|
    ensures forall i :: 0 <= i < |messages| ==> messages[i] == Rendered(prompt, values, i)
  {
    messages := [];
    for i := 0 to |prompt.templates|
      invariant |messages| == i
      invariant forall j :: 0 <= j < i ==> messages[j] == Rendered(prompt, values, j)
    {
      var content := SubstituteArguments(prompt.templates[i].content, prompt.arguments, values);
      messages := messages + [Message(prompt.templates[i].role, content)];
    }
  }

  function Rendered(prompt: Prompt, values: Values, i: nat): Message
    requires i < |prompt.templates|
  {
    Message(prompt.templates[i].role, Substitute(prompt.templates[i].content, prompt.arguments, values))
  }

  /** The first required argument that is not supplied is an error; otherwise each template gives
      a message. */
  method HandlePrompt(prompt: Prompt, values: Values) returns (r: CallResult)
    ensures r.MissingArgument? <==> exists a :: a in prompt.arguments && a.required && a.name !in values
    ensures r.MissingArgument? ==>
              exists i :: 0 <= i < |prompt.arguments| && prompt.arguments[i] == PromptArgument(r.name, true) && r.name !in values
                          && forall j :: 0 <= j < i ==> !prompt.arguments[j].required || prompt.arguments[j].name in values
    ensures r.Called? ==> r.description == prompt.description && |r.messages| == |prompt.templates|
    ensures r.Called? ==> forall i :: 0 <= i < |r.messages| ==>
              && r.messages[i].role == prompt.templates[i].role
              && r.messages[i].text == Substitute(prompt.templates[i].content, prompt.arguments, values)
  {
    var i := FindMissing(prompt.arguments, values);
    if i < |prompt.arguments| {
      assert prompt.arguments[i] in prompt.arguments;
      return MissingArgument(prompt.arguments[i].name);
    }
    var messages := RenderMessages(prompt, values);
    r := Called(prompt.description, messages);
  }

  /** When the call goes through, no declared hole is left in a message. */
  lemma DeclaredHolesAreFilled(parts: seq<Part>, args: seq<PromptArgument>, values: Values, n: string)
    requires forall a :: a in args ==> !Missing(a, values)
    requires Declared(n, args)
    ensures Hole(n) !in Fill(parts, args, values)
  {
    var a :| a in args && a.name == n;
    assert n in values || a == PromptArgument(n, false);
  }

  // Merging lists of prompts.

  predicate Named(prompts: seq<Prompt>, n: string)
  {
    exists i :: 0 <= i < |prompts| && prompts[i].name == n
  }

  /** The prompts whose names `others` does not use. */
  function Without(prompts: seq<Prompt>, others: seq<Prompt>): seq<Prompt>
    decreases prompts
  {
    if prompts == [] then []
    else (if Named(others, prompts[0].name) then [] else [prompts[0]]) + Without(prompts[1..], others)
  }

  function Merged(base: seq<Prompt>, overrides: seq<Prompt>): seq<Prompt>
  {
    Without(base, overrides) + overrides
  }

  lemma NamedNext(prompts: seq<Prompt>, i: nat)
    requires i < |prompts|
    ensures forall n :: Named(prompts[..i + 1], n) <==> Named(prompts[..i], n) || n == prompts[i].name
  {
    var p, q := prompts[..i], prompts[..i + 1];
    assert q == p + [prompts[i]];
    forall n ensures Named(q, n) <==> Named(p, n) || n == prompts[i].name {
      if Named(p, n) {
        var j :| 0 <= j < |p| && p[j].name == n;
        assert q[j].name == n;
      }
      assert q[i].name == prompts[i].name;
    }
  }

  /** The overrides by name. */
  method OverrideMap(overrides: seq<Prompt>) returns (overrideMap: map<string, Prompt>)
    ensures forall n :: n in overrideMap <==> Named(overrides, n)
  {
    overrideMap := map[];
    for i := 0 to |overrides|
      invariant forall n :: n in overrideMap <==> Named(overrides[..i], n)
    {
      NamedNext(overrides, i);
      overrideMap := overrideMap[overrides[i].name := overrides[i]];
    }
    assert overrides[..|overrides|] == overrides;
  }

  /** The prompts whose names are not in the map. */
  method NotIn(base: seq<Prompt>, overrideMap: map<string, Prompt>, ghost overrides: seq<Prompt>) returns (result: seq<Prompt>)
    requires forall n :: n in overrideMap <==> Named(overrides, n)
    ensures result == Without(base, overrides)
  {
    result := [];
    for i := 0 to |base|
      invariant result == Without(base[..i], overrides)
    {
      assert base[..i + 1] == base[..i] + [base[i]];
      WithoutConcat(base[..i], [base[i]], overrides);
      WithoutOne(base[i], overrides);
      if base[i].name !in overrideMap {
        result := result + [base[i]];
      }
    }
    assert base[..|base|] == base;
  }

  lemma WithoutOne(prompt: Prompt, others: seq<Prompt>)
    ensures Without([prompt], others) == if Named(others, prompt.name) then [] else [prompt]
  {
    assert [prompt][1..] == [];
  }

  method MergePrompts(base: seq<Prompt>, overrides: seq<Prompt>) returns (result: seq<Prompt>)
    ensures result == Merged(base, overrides)
  {
    var overrideMap := OverrideMap(overrides);
    result := NotIn(base, overrideMap, overrides);
    result := result + overrides;
  }

  /** The prompts of a name, in order. */
  function Of(prompts: seq<Prompt>, n: string): seq<Prompt>
    decreases prompts
  {
    if prompts == [] then [] else (if prompts[0].name == n then [prompts[0]] else []) + Of(prompts[1..], n)
  }

  lemma {:induction false} OfConcat(a: seq<Prompt>, b: seq<Prompt>, n: string)
    ensures Of(a + b, n) == Of(a, n) + Of(b, n)
    decreases a
  {
    if a == [] {
      assert a + b == b;
    } else {
      OfConcat(a[1..], b, n);
      assert (a + b)[0] == a[0] && (a + b)[1..] == a[1..] + b;
      var first := if a[0].name == n then [a[0]] else [];
      assert first + (Of(a[1..], n) + Of(b, n)) == first + Of(a[1..], n) + Of(b, n);
    }
  }

  lemma {:induction false} OfWithout(a: seq<Prompt>, b: seq<Prompt>, n: string)
    ensures Of(Without(a, b), n) == if Named(b, n) then [] else Of(a, n)
    decreases a
  {
    if a != [] {
      OfWithout(a[1..], b, n);
      OfConcat(if Named(b, a[0].name) then [] else [a[0]], Without(a[1..], b), n);
    }
  }

  lemma {:induction false} OfNamed(a: seq<Prompt>, n: string)
    ensures Of(a, n) != [] <==> Named(a, n)
    decreases a
  {
    if a != [] {
      OfNamed(a[1..], n);
      assert forall i :: 0 < i < |a| ==> a[i] == a[1..][i - 1];
    }
  }

  /** The prompts of a name come from the override when it has that name, else from the base. */
  lemma OverrideWinsByName(base: seq<Prompt>, overrides: seq<Prompt>, n: string)
    ensures Of(Merged(base, overrides), n) == if Named(overrides, n) then Of(overrides, n) else Of(base, n)
    ensures Named(Merged(base, overrides), n) <==> Named(base, n) || Named(overrides, n)
  {
    OfConcat(Without(base, overrides), overrides, n);
    OfWithout(base, overrides, n);
    OfNamed(overrides, n);
    OfNamed(base, n);
    OfNamed(Merged(base, overrides), n);
  }

  lemma {:induction false} WithoutAll(base: seq<Prompt>, others: seq<Prompt>)
    ensures (forall p :: p in base ==> !Named(others, p.name)) ==> Without(base, others) == base
    ensures forall p :: p in Without(base, others) <==> p in base && !Named(others, p.name)
    decreases base
  {
    if base != [] {
      assert forall p :: p in base[1..] ==> p in base;
      WithoutAll(base[1..], others);
    }
  }

  /** The overrides come last and in their order, after what is left of the base in its order: of a
      base in two pieces what is left of the one and then of the other. */
  lemma MergedInOrder(base: seq<Prompt>, more: seq<Prompt>, overrides: seq<Prompt>) returns (left: seq<Prompt>, leftMore: seq<Prompt>)
    ensures Merged(base, overrides) == left + overrides && Merged(more, overrides) == leftMore + overrides
    ensures Merged(base + more, overrides) == left + leftMore + overrides
    ensures forall p :: p in left <==> p in base && !Named(overrides, p.name)
    ensures (forall p :: p in base ==> !Named(overrides, p.name)) ==> left == base
  {
    WithoutAll(base, overrides);
    WithoutConcat(base, more, overrides);
    left, leftMore := Without(base, overrides), Without(more, overrides);
  }

  lemma {:induction false} WithoutTwice(a: seq<Prompt>, b: seq<Prompt>, c: seq<Prompt>, d: seq<Prompt>)
    requires forall n :: Named(d, n) <==> Named(b, n) || Named(c, n)
    ensures Without(Without(a, b), c) == Without(a, d)
    decreases a
  {
    if a != [] {
      WithoutTwice(a[1..], b, c, d);
      WithoutConcat(if Named(b, a[0].name) then [] else [a[0]], Without(a[1..], b), c);
    }
  }

  lemma {:induction false} WithoutConcat(a: seq<Prompt>, b: seq<Prompt>, c: seq<Prompt>)
    ensures Without(a + b, c) == Without(a, c) + Without(b, c)
    decreases a
  {
    if a == [] {
      assert a + b == b;
    } else {
      assert (a + b)[1..] == a[1..] + b;
      WithoutConcat(a[1..], b, c);
    }
  }

  /** Several lists of prompts can be merged from either end. */
  lemma MergeAssociative(a: seq<Prompt>, b: seq<Prompt>, c: seq<Prompt>)
    ensures Merged(Merged(a, b), c) == Merged(a, Merged(b, c))
  {
    forall n ensures Named(Merged(b, c), n) <==> Named(b, n) || Named(c, n) {
      OverrideWinsByName(b, c, n);
    }
    WithoutTwice(a, b, c, Merged(b, c));
    WithoutConcat(Without(a, b), b, c);
    assert Without(a, Merged(b, c)) + Without(b, c) + c == Without(a, Merged(b, c)) + (Without(b, c) + c);
  }
}
