/**
 * Properties of a parse by py_win_bash/command.py, stated on the specification
 * `Command.Parsed` that the method `Command.Parse` is proved to compute.
 */
module CommandProperties {
  import opened Wrappers
  import opened Command

  /** `title` is non-empty and is the title of an entry of `list`. */
  ghost predicate Declared(list: seq<OptionSpec>, title: string) {
    title != "" && exists e :: e in list && e.title == title
  }

  /** A token that starts with "--" also starts with "-". */
  lemma LongIsShort(token: string)
    ensures StartsWith(token, "--") ==> StartsWith(token, "-")
  {
    if StartsWith(token, "--") {
      assert token[..1] == token[..2][..1];
    }
  }

  /** A token is positional exactly when it does not start with "-". */
  lemma PositionalIffPlain(schema: Schema, token: string)
    ensures Classify(schema, token) == Positional <==> !StartsWith(token, "-")
  {
    LongIsShort(token);
  }

  // ---------------------------------------------------------------------------
  // Empty input, input without options
  // ---------------------------------------------------------------------------

  /** No tokens: nothing is recorded, whatever the schema and whichever lists it omits. */
  lemma ParseEmpty(raw: RawSchema)
    ensures Parsed(Normalize(raw), []) == ParseResult([], [], map[])
    ensures raw.flags.None? ==> Normalize(raw).flags == []
    ensures raw.kwargs.None? ==> Normalize(raw).kwargs == []
  {
  }

  lemma {:induction false} NoOptionsUpTo(roles: seq<Role>, tokens: seq<string>, n: nat)
    requires |roles| == |tokens| && n <= |tokens|
    requires forall k :: 0 <= k < |roles| ==> roles[k] == Positional
    ensures Summary(roles, tokens, n) == ParseResult(tokens[..n], [], map[])
  {
    if n > 0 {
      NoOptionsUpTo(roles, tokens, n - 1);
      assert IsEntry(roles, n - 1);
      assert tokens[..n] == tokens[..n - 1] + [tokens[n - 1]];
    }
  }

  /** When no token starts with "-", every token is positional, in order. */
  lemma ParseNoOptions(schema: Schema, tokens: seq<string>)
    requires forall k :: 0 <= k < |tokens| ==> !StartsWith(tokens[k], "-")
    ensures Parsed(schema, tokens) == ParseResult(tokens, [], map[])
  {
    var roles := Roles(schema, tokens);
    forall k | 0 <= k < |roles| ensures roles[k] == Positional {
      PositionalIffPlain(schema, tokens[k]);
    }
    NoOptionsUpTo(roles, tokens, |tokens|);
    assert tokens[..|tokens|] == tokens;
  }

  // ---------------------------------------------------------------------------
  // Only declared, non-empty titles are recorded
  // ---------------------------------------------------------------------------

  /** Every title a role records is declared in the matching list. */
  ghost predicate RoleDeclared(schema: Schema, role: Role) {
    role.Named? ==>
      && (role.flag.Some? ==> Declared(schema.flags, role.flag.value))
      && (role.kwarg.Some? ==> Declared(schema.kwargs, role.kwarg.value))
  }

  lemma ClassifyDeclared(schema: Schema, token: string)
    ensures RoleDeclared(schema, Classify(schema, token))
  {
    if StartsWith(token, "--") {
      FirstTitleFound(schema.flags, Title, token[2..]);
      FirstTitleFound(schema.kwargs, Title, token[2..]);
    } else if StartsWith(token, "-") {
      FirstTitleFound(schema.flags, Short, token[1..]);
      FirstTitleFound(schema.kwargs, Short, token[1..]);
    }
  }

  lemma {:induction false} SummaryDeclared(schema: Schema, roles: seq<Role>, tokens: seq<string>, n: nat)
    requires |roles| == |tokens| && n <= |tokens|
    requires forall k :: 0 <= k < |roles| ==> RoleDeclared(schema, roles[k])
    ensures forall f :: f in Summary(roles, tokens, n).flags ==> Declared(schema.flags, f)
    ensures forall t :: t in Summary(roles, tokens, n).kwargs ==> Declared(schema.kwargs, t)
  {
    if n > 0 {
      SummaryDeclared(schema, roles, tokens, n - 1);
      assert RoleDeclared(schema, roles[n - 1]);
    }
  }

  /**
   * Every recorded flag is the non-empty title of a declared flag, and every
   * keyword key is the non-empty title of a declared keyword option.
   */
  lemma ParseTitlesDeclared(schema: Schema, tokens: seq<string>)
    ensures forall f :: f in Parsed(schema, tokens).flags ==> Declared(schema.flags, f)
    ensures forall t :: t in Parsed(schema, tokens).kwargs ==> Declared(schema.kwargs, t)
  {
    var roles := Roles(schema, tokens);
    forall k | 0 <= k < |roles| ensures RoleDeclared(schema, roles[k]) {
      ClassifyDeclared(schema, tokens[k]);
    }
    SummaryDeclared(schema, roles, tokens, |tokens|);
  }

  // ---------------------------------------------------------------------------
  // Sizes
  // ---------------------------------------------------------------------------

  lemma {:induction false} SummaryBounds(roles: seq<Role>, tokens: seq<string>, n: nat)
    requires |roles| == |tokens| && n <= |tokens|
    ensures |Summary(roles, tokens, n).args| + |Summary(roles, tokens, n).flags| <= n
    ensures |Summary(roles, tokens, n).kwargs| <= n
  {
    if n > 0 {
      SummaryBounds(roles, tokens, n - 1);
    }
  }

  /**
   * Each token yields at most one positional argument or one flag, and at
   * most one keyword key.
   */
  lemma ParseBounds(schema: Schema, tokens: seq<string>)
    ensures |Parsed(schema, tokens).args| + |Parsed(schema, tokens).flags| <= |tokens|
    ensures |Parsed(schema, tokens).kwargs| <= |tokens|
  {
    SummaryBounds(Roles(schema, tokens), tokens, |tokens|);
  }

  // ---------------------------------------------------------------------------
  // Keyword options
  // ---------------------------------------------------------------------------

  /** An entry with this role binds keyword `t`. */
  predicate Binds(role: Role, t: string) {
    role.Named? && role.kwarg == Some(t)
  }

  lemma {:induction false} KwargKeysUpTo(roles: seq<Role>, tokens: seq<string>, n: nat, t: string)
    requires |roles| == |tokens| && n <= |tokens|
    ensures t in Summary(roles, tokens, n).kwargs <==>
      exists j :: 0 <= j < n && IsEntry(roles, j) && Binds(roles[j], t)
  {
    if n > 0 {
      KwargKeysUpTo(roles, tokens, n - 1, t);
    }
  }

  /** A key is bound exactly when some entry token names that keyword option. */
  lemma ParseKwargKeys(schema: Schema, tokens: seq<string>, t: string)
    ensures t in Parsed(schema, tokens).kwargs <==>
      exists j :: 0 <= j < |tokens| && IsEntry(Roles(schema, tokens), j) && Binds(Classify(schema, tokens[j]), t)
  {
    KwargKeysUpTo(Roles(schema, tokens), tokens, |tokens|, t);
  }

  lemma {:induction false} LastBindingUpTo(roles: seq<Role>, tokens: seq<string>, n: nat, j: nat, t: string)
    requires |roles| == |tokens| && j < n <= |tokens|
    requires IsEntry(roles, j) && Binds(roles[j], t)
    requires forall k :: j < k < n ==> !(IsEntry(roles, k) && Binds(roles[k], t))
    ensures t in Summary(roles, tokens, n).kwargs
    ensures Summary(roles, tokens, n).kwargs[t] == if j + 1 < |tokens| then Some(tokens[j + 1]) else None
  {
    if n > j + 1 {
      LastBindingUpTo(roles, tokens, n - 1, j, t);
      assert !(IsEntry(roles, n - 1) && Binds(roles[n - 1], t));
    }
  }

  /**
   * The last entry naming keyword option `t` decides its value: the raw token
   * right after it (even one starting with "-"), or None when it is the last
   * token. That next token is not itself read as an entry.
   */
  lemma ParseKwargValue(schema: Schema, tokens: seq<string>, j: nat, t: string)
    requires j < |tokens|
    requires IsEntry(Roles(schema, tokens), j) && Binds(Classify(schema, tokens[j]), t)
    requires forall k :: j < k < |tokens| ==> !(IsEntry(Roles(schema, tokens), k) && Binds(Classify(schema, tokens[k]), t))
    ensures t in Parsed(schema, tokens).kwargs
    ensures Parsed(schema, tokens).kwargs[t] == if j + 1 < |tokens| then Some(tokens[j + 1]) else None
    ensures j + 1 < |tokens| ==> !IsEntry(Roles(schema, tokens), j + 1)
  {
    LastBindingUpTo(Roles(schema, tokens), tokens, |tokens|, j, t);
  }

  /**
   * A key that names both a flag and a keyword option does both: the flag
   * title is appended and the following token is taken as the value.
   */
  lemma DualMatch(schema: Schema, tokens: seq<string>, j: nat, f: string, t: string)
    requires j < |tokens| && IsEntry(Roles(schema, tokens), j)
    requires Classify(schema, tokens[j]) == Named(Some(f), Some(t))
    ensures var roles := Roles(schema, tokens);
      && Summary(roles, tokens, j + 1).args == Summary(roles, tokens, j).args
      && Summary(roles, tokens, j + 1).flags == Summary(roles, tokens, j).flags + [f]
      && Summary(roles, tokens, j + 1).kwargs ==
           Summary(roles, tokens, j).kwargs[t := if j + 1 < |tokens| then Some(tokens[j + 1]) else None]
      && (j + 1 < |tokens| ==> !IsEntry(roles, j + 1))
  {
  }

  // ---------------------------------------------------------------------------
  // Unknown options are dropped
  // ---------------------------------------------------------------------------

  /**
   * Two positions with the same token, role and entry status, and the same
   * lookahead, add the same to a result.
   */
  lemma RecordAgrees(ra: seq<Role>, a: seq<string>, i: nat, rb: seq<Role>, b: seq<string>, k: nat, acc: ParseResult)
    requires |ra| == |a| && |rb| == |b| && i < |a| && k < |b|
    requires a[i] == b[k] && ra[i] == rb[k] && IsEntry(ra, i) == IsEntry(rb, k)
    requires IsEntry(ra, i) && TakesValue(ra[i]) ==>
      (i + 1 < |a| <==> k + 1 < |b|) && (i + 1 < |a| ==> a[i + 1] == b[k + 1])
    ensures Record(ra, a, i, acc) == Record(rb, b, k, acc)
  {
  }

  /** Inputs that agree up to position `m` agree on every entry and summary up to it. */
  lemma {:induction false} SameSummary(ra: seq<Role>, a: seq<string>, rb: seq<Role>, b: seq<string>, m: nat)
    requires |ra| == |a| && |rb| == |b| && m < |a| && m < |b|
    requires a[..m + 1] == b[..m + 1] && ra[..m + 1] == rb[..m + 1]
    ensures IsEntry(ra, m) == IsEntry(rb, m)
    ensures Summary(ra, a, m) == Summary(rb, b, m)
  {
    if m > 0 {
      assert a[..m] == a[..m + 1][..m] && b[..m] == b[..m + 1][..m];
      assert ra[..m] == ra[..m + 1][..m] && rb[..m] == rb[..m + 1][..m];
      SameSummary(ra, a, rb, b, m - 1);
      assert a[m - 1] == a[..m + 1][m - 1] && b[m - 1] == b[..m + 1][m - 1];
      assert ra[m - 1] == ra[..m + 1][m - 1] && rb[m - 1] == rb[..m + 1][m - 1];
      assert a[m] == a[..m + 1][m] && b[m] == b[..m + 1][m];
      SummaryStep(ra, a, m - 1);
      SummaryStep(rb, b, m - 1);
      RecordAgrees(ra, a, m - 1, rb, b, m - 1, Summary(ra, a, m - 1));
    }
  }

  /** Deleting the dropped entry at `j` leaves the summary before it, and the entry status after it, unchanged. */
  lemma BeforeDropped(roles: seq<Role>, tokens: seq<string>, j: nat)
    requires |roles| == |tokens| && j < |tokens|
    requires IsEntry(roles, j) && roles[j] == Named(None, None)
    ensures var u, ru := tokens[..j] + tokens[j + 1..], roles[..j] + roles[j + 1..];
      && Summary(ru, u, j) == Summary(roles, tokens, j + 1)
      && (j < |u| ==> IsEntry(ru, j))
      && (j + 1 < |tokens| ==> IsEntry(roles, j + 1))
  {
    var u, ru := tokens[..j] + tokens[j + 1..], roles[..j] + roles[j + 1..];
    SummaryStep(roles, tokens, j);
    if j > 0 {
      assert tokens[..j] == u[..j] && roles[..j] == ru[..j];
      SameSummary(roles, tokens, ru, u, j - 1);
      assert u[j - 1] == tokens[j - 1] && ru[j - 1] == roles[j - 1];
      SummaryStep(roles, tokens, j - 1);
      SummaryStep(ru, u, j - 1);
      RecordAgrees(roles, tokens, j - 1, ru, u, j - 1, Summary(roles, tokens, j - 1));
    }
  }

  lemma {:induction false} ShiftedSummary(roles: seq<Role>, tokens: seq<string>, j: nat, m: nat)
    requires |roles| == |tokens| && j < m <= |tokens|
    requires IsEntry(roles, j) && roles[j] == Named(None, None)
    ensures var u, ru := tokens[..j] + tokens[j + 1..], roles[..j] + roles[j + 1..];
      && (m < |tokens| ==> IsEntry(roles, m) == IsEntry(ru, m - 1))
      && Summary(roles, tokens, m) == Summary(ru, u, m - 1)
    decreases m
  {
    var u, ru := tokens[..j] + tokens[j + 1..], roles[..j] + roles[j + 1..];
    BeforeDropped(roles, tokens, j);
    if m > j + 1 {
      ShiftedSummary(roles, tokens, j, m - 1);
      assert u[m - 2] == tokens[m - 1] && ru[m - 2] == roles[m - 1];
      assert m < |tokens| ==> u[m - 1] == tokens[m] && ru[m - 1] == roles[m];
      SummaryStep(roles, tokens, m - 1);
      SummaryStep(ru, u, m - 2);
      RecordAgrees(roles, tokens, m - 1, ru, u, m - 2, Summary(roles, tokens, m - 1));
    }
  }

  /** Classifying tokens commutes with deleting one of them. */
  lemma RolesWithout(schema: Schema, tokens: seq<string>, j: nat)
    requires j < |tokens|
    ensures Roles(schema, tokens[..j] + tokens[j + 1..]) == Roles(schema, tokens)[..j] + Roles(schema, tokens)[j + 1..]
  {
    var u := tokens[..j] + tokens[j + 1..];
    var roles := Roles(schema, tokens);
    forall k | 0 <= k < |u| ensures Roles(schema, u)[k] == (roles[..j] + roles[j + 1..])[k] {
      if k < j {
        assert u[k] == tokens[k];
      } else {
        assert u[k] == tokens[k + 1];
      }
    }
  }

  /**
   * An option entry that matches neither list is dropped: the parse is the
   * same as the parse of the tokens without it.
   */
  lemma UnknownDropped(schema: Schema, tokens: seq<string>, j: nat)
    requires j < |tokens| && IsEntry(Roles(schema, tokens), j)
    requires Classify(schema, tokens[j]) == Named(None, None)
    ensures Parsed(schema, tokens) == Parsed(schema, tokens[..j] + tokens[j + 1..])
  {
    var roles := Roles(schema, tokens);
    var u := tokens[..j] + tokens[j + 1..];
    RolesWithout(schema, tokens, j);
    ShiftedSummary(roles, tokens, j, |tokens|);
    assert |u| == |tokens| - 1;
  }

  // ---------------------------------------------------------------------------
  // Worked examples
  // ---------------------------------------------------------------------------

  lemma PlainToken(token: string)
    requires |token| == 0 || token[0] != '-'
    ensures !StartsWith(token, "-") && !StartsWith(token, "--")
  {
    if |token| >= 1 { assert token[..1][0] != "-"[0]; }
    if |token| >= 2 { assert token[..2][0] != "--"[0]; }
  }

  lemma ShortToken(token: string)
    requires |token| >= 1 && token[0] == '-' && (|token| == 1 || token[1] != '-')
    ensures StartsWith(token, "-") && !StartsWith(token, "--")
  {
    assert token[..1] == "-";
    if |token| >= 2 { assert token[..2][1] != "--"[1]; }
  }

  lemma LongToken(token: string)
    requires |token| >= 2 && token[0] == '-' && token[1] == '-'
    ensures StartsWith(token, "--")
  {
    assert token[..2] == "--";
  }

  const Verbose := OptionSpec("verbose", "v")
  const Output := OptionSpec("output", "o")

  lemma ShortFlagExample()
    ensures Parsed(Schema([Verbose], []), ["-v"]) == ParseResult([], ["verbose"], map[])
  {
    ShortToken("-v");
  }

  lemma KwargExample()
    ensures Parsed(Schema([], [Output]), ["--output", "file.txt"]) == ParseResult([], [], map["output" := Some("file.txt")])
    ensures Parsed(Schema([], [Output]), ["--output"]) == ParseResult([], [], map["output" := None])
  {
    LongToken("--output");
    assert "--output"[2..] == "output";
  }

  lemma UnknownExample()
    ensures Parsed(Schema([], []), ["--unknown", "x"]) == ParseResult(["x"], [], map[])
  {
    LongToken("--unknown");
    PlainToken("x");
  }

  lemma DualExample()
    ensures var dual := OptionSpec("dual", "d");
      Parsed(Schema([dual], [dual]), ["--dual", "val"]) == ParseResult([], ["dual"], map["dual" := Some("val")])
  {
    LongToken("--dual");
    assert "--dual"[2..] == "dual";
  }

  lemma MixedExample()
    ensures Parsed(Schema([Verbose], [Output]), ["pos1", "--verbose", "pos2", "-o", "out.txt", "pos3"])
      == ParseResult(["pos1", "pos2", "pos3"], ["verbose"], map["output" := Some("out.txt")])
  {
    var schema, tokens := Schema([Verbose], [Output]), ["pos1", "--verbose", "pos2", "-o", "out.txt", "pos3"];
    var roles := Roles(schema, tokens);
    PlainToken("pos1");
    LongToken("--verbose");
    PlainToken("pos2");
    ShortToken("-o");
    PlainToken("pos3");
    assert "--verbose"[2..] == "verbose" && "-o"[1..] == "o";
    assert "verbose" != "output" by { assert |"verbose"| != |"output"|; }
    assert FirstTitle(schema.kwargs, Title, "verbose") == None;
    assert FirstTitle(schema.flags, Short, "o") == None;
    assert roles[0] == Positional && roles[2] == Positional && roles[5] == Positional;
    assert roles[1] == Named(Some("verbose"), None);
    assert roles[3] == Named(None, Some("output"));
    assert Summary(roles, tokens, 1) == ParseResult(["pos1"], [], map[]);
    assert Summary(roles, tokens, 2) == ParseResult(["pos1"], ["verbose"], map[]);
    assert Summary(roles, tokens, 3) == ParseResult(["pos1", "pos2"], ["verbose"], map[]);
    assert Summary(roles, tokens, 4) == ParseResult(["pos1", "pos2"], ["verbose"], map["output" := Some("out.txt")]);
    assert !IsEntry(roles, 4) && IsEntry(roles, 5);
    assert Summary(roles, tokens, 5) == Summary(roles, tokens, 4);
  }

  /** A value that looks like an option is taken raw; a later binding overwrites an earlier one. */
  lemma ValueExample()
    ensures Parsed(Schema([Verbose], [Output]), ["-o", "-v", "--output", "b"])
      == ParseResult([], [], map["output" := Some("b")])
  {
    var schema, tokens := Schema([Verbose], [Output]), ["-o", "-v", "--output", "b"];
    var roles := Roles(schema, tokens);
    ShortToken("-o");
    LongToken("--output");
    assert "--output"[2..] == "output" && "-o"[1..] == "o";
    assert "verbose" != "output" by { assert |"verbose"| != |"output"|; }
    assert FirstTitle(schema.flags, Short, "o") == None;
    assert FirstTitle(schema.flags, Title, "output") == None;
    assert roles[0] == Named(None, Some("output"));
    assert roles[2] == Named(None, Some("output"));
    assert Summary(roles, tokens, 1) == ParseResult([], [], map["output" := Some("-v")]);
    assert !IsEntry(roles, 1) && IsEntry(roles, 2) && !IsEntry(roles, 3);
    assert Summary(roles, tokens, 2) == Summary(roles, tokens, 1);
    assert map["output" := Some("-v")]["output" := Some("b")] == map["output" := Some("b")];
    assert Summary(roles, tokens, 3) == ParseResult([], [], map["output" := Some("b")]);
  }

  /** The first match decides: an empty title records nothing and takes no value. */
  lemma EmptyTitleExample()
    ensures Parsed(Schema([], [OptionSpec("", "x"), OptionSpec("late", "x")]), ["-x", "v"]) == ParseResult(["v"], [], map[])
    ensures Parsed(Schema([OptionSpec("bare", "")], []), ["-", "--"]) == ParseResult([], ["bare"], map[])
  {
    ShortToken("-x");
    PlainToken("v");
    ShortToken("-");
    LongToken("--");
  }
}
