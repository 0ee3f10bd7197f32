/** Instance connection names: `project:region:name`, where the project may carry a dotted domain. */
module Names {
  import opened Basics

  /** `strings.Split` for a one-character separator. */
  function Split(s: string, sep: char): (parts: seq<string>)
    ensures |parts| >= 1
  {
    if s == "" then [""]
    else
      var rest := Split(s[1..], sep);
      if s[0] == sep then [""] + rest else [[s[0]] + rest[0]] + rest[1..]
  }

  function Join(parts: seq<string>, sep: char): string
    requires parts != []
  {
    if |parts| == 1 then parts[0] else parts[0] + [sep] + Join(parts[1..], sep)
  }

  /** A split name; a missing part is empty. */
  datatype Name = Name(project: string, region: string, name: string)

  /** The components of a name, with a dotted domain joined to the project after it. */
  function Components(spl: seq<string>): seq<string>
    requires |spl| >= 2
  {
    if '.' in spl[0] then [spl[0] + ":" + spl[1]] + spl[2..] else spl
  }

  function SplitName(instance: string): Name {
    var spl := Split(instance, ':');
    if |spl| < 2 then Name("", "", instance)
    else
      var c := Components(spl);
      if |c| < 2 then Name("", "", instance)
      else if |c| == 2 then Name(c[0], "", c[1])
      else Name(c[0], c[1], c[2])
  }

  datatype ParseResult =
    | Parsed(project: string, region: string, name: string, args: seq<string>)
    | TooManyArguments
    | BadName

  function ParseInstanceConnectionName(instance: string): ParseResult {
    var args := Split(instance, '=');
    if |args| > 2 then TooManyArguments
    else
      var Name(project, region, name) := SplitName(args[0]);
      if project == "" || region == "" || name == "" then BadName
      else Parsed(project, region, name, args)
  }

  // ---------- Splitting and joining ----------

  lemma {:induction false} JoinUndoesSplit(s: string, sep: char)
    ensures Join(Split(s, sep), sep) == s
  {
    if s != "" {
      JoinUndoesSplit(s[1..], sep);
      var rest := Split(s[1..], sep);
      if s[0] == sep {
        assert Split(s, sep)[1..] == rest;
      } else {
        assert Split(s, sep)[1..] == rest[1..];
      }
    }
  }

  lemma {:induction false} PartsAreFree(s: string, sep: char)
    ensures forall k :: 0 <= k < |Split(s, sep)| ==> sep !in Split(s, sep)[k]
  {
    if s != "" {
      PartsAreFree(s[1..], sep);
    }
  }

  lemma {:induction false} FreeIsOnePart(s: string, sep: char)
    ensures sep !in s <==> Split(s, sep) == [s]
  {
    if s != "" {
      FreeIsOnePart(s[1..], sep);
      assert s == [s[0]] + s[1..];
      if sep !in s {
        assert sep !in s[1..];
      } else {
        PartsAreFree(s, sep);
        assert sep !in Split(s, sep)[0];
      }
    }
  }

  /** A separator between two strings separates their parts. */
  lemma {:induction false} SplitDistributes(a: string, b: string, sep: char)
    ensures Split(a + [sep] + b, sep) == Split(a, sep) + Split(b, sep)
  {
    if a == "" {
      assert ("" + [sep] + b)[1..] == b;
    } else {
      assert (a + [sep] + b)[1..] == a[1..] + [sep] + b;
      SplitDistributes(a[1..], b, sep);
    }
  }

  /** Splitting undoes joining wherever no part holds the separator. */
  lemma {:induction false} SplitUndoesJoin(parts: seq<string>, sep: char)
    requires parts != [] && forall k :: 0 <= k < |parts| ==> sep !in parts[k]
    ensures Split(Join(parts, sep), sep) == parts
  {
    FreeIsOnePart(parts[0], sep);
    if |parts| > 1 {
      SplitUndoesJoin(parts[1..], sep);
      SplitDistributes(parts[0], Join(parts[1..], sep), sep);
      assert parts == [parts[0]] + parts[1..];
    }
  }

  // ---------- Names ----------

  /** A project: one component without a dot, or a dotted domain and one more component. */
  predicate IsProject(project: string) {
    var spl := Split(project, ':');
    && project != ""
    && (|spl| == 1 || |spl| == 2)
    && ('.' in spl[0] <==> |spl| == 2)
  }

  predicate IsComponent(s: string) {
    s != "" && ':' !in s
  }

  function Full(n: Name): string {
    n.project + ":" + n.region + ":" + n.name
  }

  /** The name is the whole text, or the text goes on after it at a component boundary. */
  predicate Begins(text: string, n: Name) {
    text == Full(n) || Full(n) + ":" <= text
  }

  predicate IsComplete(n: Name) {
    n.project != "" && n.region != "" && n.name != ""
  }

  lemma {:induction false} SplitOfFull(n: Name, more: string)
    requires IsComponent(n.region) && IsComponent(n.name)
    ensures Split(Full(n), ':') == Split(n.project, ':') + [n.region, n.name]
    ensures Split(Full(n) + ":" + more, ':') == Split(n.project, ':') + [n.region, n.name] + Split(more, ':')
  {
    FreeIsOnePart(n.region, ':');
    FreeIsOnePart(n.name, ':');
    SplitDistributes(n.project, n.region, ':');
    SplitDistributes(n.project + ":" + n.region, n.name, ':');
    SplitDistributes(Full(n), more, ':');
  }

  lemma {:induction false} FullSplitsBack(instance: string, n: Name)
    requires IsComplete(n) && IsProject(n.project) && IsComponent(n.region) && IsComponent(n.name)
    requires Begins(instance, n)
    ensures SplitName(instance) == n
  {
    var tail: seq<string> := [];
    if instance == Full(n) {
      SplitOfFull(n, "");
    } else {
      var more := instance[|Full(n)| + 1..];
      assert instance == Full(n) + ":" + more;
      SplitOfFull(n, more);
      tail := Split(more, ':');
    }
    assert Split(instance, ':') == Split(n.project, ':') + ([n.region, n.name] + tail);
    ProjectComesFirst(n.project, [n.region, n.name] + tail);
  }

  /** A project in front of other components becomes the first component. */
  lemma {:induction false} ProjectComesFirst(project: string, others: seq<string>)
    requires IsProject(project) && others != []
    ensures Components(Split(project, ':') + others) == [project] + others
  {
    var spl := Split(project, ':');
    JoinUndoesSplit(project, ':');
    if |spl| == 2 {
      assert project == spl[0] + ":" + spl[1];
    }
  }

  lemma {:induction false} JoinOfComponents(spl: seq<string>)
    requires |spl| >= 2
    ensures Join(Components(spl), ':') == Join(spl, ':')
  {
    if '.' in spl[0] && |spl| > 2 {
      assert Components(spl)[1..] == spl[1..][1..];
    }
  }

  lemma {:induction false} JoinBegins(c: seq<string>)
    requires |c| >= 3
    ensures Begins(Join(c, ':'), Name(c[0], c[1], c[2]))
  {
    var n := Name(c[0], c[1], c[2]);
    assert c[1..][1..] == c[2..];
    if |c| == 3 {
      assert Join(c[2..], ':') == c[2];
      assert Join(c, ':') == Full(n);
    } else {
      var rest := Join(c[2..][1..], ':');
      assert Join(c[2..], ':') == c[2] + ":" + rest;
      assert Join(c, ':') == Full(n) + ":" + rest;
    }
  }

  lemma {:induction false} FirstComponentIsProject(spl: seq<string>)
    requires |spl| >= 2 && (forall k :: 0 <= k < |spl| ==> ':' !in spl[k]) && Components(spl)[0] != ""
    ensures IsProject(Components(spl)[0])
  {
    FreeIsOnePart(spl[0], ':');
    FreeIsOnePart(spl[1], ':');
    SplitDistributes(spl[0], spl[1], ':');
  }

  lemma {:induction false} CompleteIsBegin(instance: string)
    requires IsComplete(SplitName(instance))
    ensures var n := SplitName(instance);
      IsProject(n.project) && IsComponent(n.region) && IsComponent(n.name) && Begins(instance, n)
  {
    var spl := Split(instance, ':');
    JoinUndoesSplit(instance, ':');
    PartsAreFree(instance, ':');
    JoinOfComponents(spl);
    JoinBegins(Components(spl));
    FirstComponentIsProject(spl);
  }

  /**
   * A text splits into a complete name exactly when it begins with that name, up to a component
   * boundary; components after the third are ignored.
   */
  lemma {:induction false} SplitNameIff(instance: string, n: Name)
    requires IsComplete(n)
    ensures SplitName(instance) == n
       <==> IsProject(n.project) && IsComponent(n.region) && IsComponent(n.name) && Begins(instance, n)
  {
    if SplitName(instance) == n {
      CompleteIsBegin(instance);
    } else if IsProject(n.project) && IsComponent(n.region) && IsComponent(n.name) && Begins(instance, n) {
      FullSplitsBack(instance, n);
    }
  }

  /** A name without a region comes back from its two parts. */
  lemma {:induction false} TwoPartName(project: string, name: string)
    requires IsProject(project) && ':' !in name
    ensures SplitName(project + ":" + name) == Name(project, "", name)
  {
    FreeIsOnePart(name, ':');
    SplitDistributes(project, name, ':');
    ProjectComesFirst(project, [name]);
  }

  /** Without a second component, counting a dotted domain and its project as one, all is the name. */
  lemma {:induction false} BareName(instance: string)
    requires ':' !in instance || (IsProject(instance) && '.' in Split(instance, ':')[0])
    ensures SplitName(instance) == Name("", "", instance)
  {
    FreeIsOnePart(instance, ':');
  }

  /** The text before the options, and the options if there are any. */
  predicate IsArgument(instance: string, connection: string, options: Option<string>) {
    && '=' !in connection
    && (options.Some? ==> '=' !in options.value)
    && instance == (if options.Some? then connection + "=" + options.value else connection)
  }

  function ArgsOf(connection: string, options: Option<string>): seq<string> {
    if options.Some? then [connection, options.value] else [connection]
  }

  lemma {:induction false} ArgumentSplits(instance: string, connection: string, options: Option<string>)
    ensures IsArgument(instance, connection, options) <==> Split(instance, '=') == ArgsOf(connection, options)
  {
    FreeIsOnePart(connection, '=');
    if options.Some? {
      FreeIsOnePart(options.value, '=');
      SplitDistributes(connection, options.value, '=');
    }
    if Split(instance, '=') == ArgsOf(connection, options) {
      JoinUndoesSplit(instance, '=');
      PartsAreFree(instance, '=');
      assert '=' !in Split(instance, '=')[0];
      if options.Some? {
        assert '=' !in Split(instance, '=')[1];
      }
    }
  }

  /**
   * An argument is accepted with these parts exactly when it is a connection name with optional
   * options, free of further equal signs, that begins with the complete name of those parts.
   */
  lemma {:induction false} ParseIff(instance: string, n: Name, connection: string, options: Option<string>)
    requires IsComplete(n)
    ensures ParseInstanceConnectionName(instance) == Parsed(n.project, n.region, n.name, ArgsOf(connection, options))
       <==> IsArgument(instance, connection, options)
            && IsProject(n.project) && IsComponent(n.region) && IsComponent(n.name) && Begins(connection, n)
  {
    ArgumentSplits(instance, connection, options);
    SplitNameIff(connection, n);
  }

  /** Every accepted argument is of that form: nothing incomplete gets through. */
  lemma {:induction false} ParsedIsComplete(instance: string)
    requires ParseInstanceConnectionName(instance).Parsed?
    ensures var r := ParseInstanceConnectionName(instance);
      && IsComplete(Name(r.project, r.region, r.name))
      && exists connection, options ::
           IsArgument(instance, connection, options) && r.args == ArgsOf(connection, options)
           && Begins(connection, Name(r.project, r.region, r.name))
  {
    var r := ParseInstanceConnectionName(instance);
    var connection := r.args[0];
    var options := if |r.args| == 2 then Some(r.args[1]) else None;
    assert r.args == ArgsOf(connection, options);
    ParseIff(instance, Name(r.project, r.region, r.name), connection, options);
  }

  /** An argument is refused for its options exactly when it holds two equal signs. */
  lemma {:induction false} TooManyIff(instance: string)
    ensures ParseInstanceConnectionName(instance).TooManyArguments?
       <==> exists a, b, c :: instance == a + "=" + b + "=" + c
  {
    var args := Split(instance, '=');
    if |args| > 2 {
      JoinUndoesSplit(instance, '=');
      var c := Join(args[1..][1..], '=');
      assert instance == args[0] + "=" + args[1] + "=" + c;
    }
    if a, b, c :| instance == a + "=" + b + "=" + c {
      SplitDistributes(a, b, '=');
      SplitDistributes(a + "=" + b, c, '=');
    }
  }
}
