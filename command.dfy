/**
 * The schema-driven command-line token classifier of py_win_bash/command.py
 * (`Command.parse`): a schema of declared flags and keyword options sorts a
 * list of tokens into positional arguments, matched flags and keyword values.
 *
 * The module holds the data model, a position-based specification of what a
 * parse produces (`IsEntry`, `Summary`, `Parsed`), and the imperative parser
 * itself (`Parse`, `FindInSchema`, `FindNestedValue`, `Next`), which walks the
 * tokens with one shared cursor exactly as the Python iterator does and is
 * proved to produce `Parsed`.
 */
module Command {
  import opened Wrappers

  // ---------------------------------------------------------------------------
  // Data model
  // ---------------------------------------------------------------------------

  /** One declared option: matched by `--title` or by `-short`. */
  datatype OptionSpec = OptionSpec(title: string, short: string)

  /** The field of an OptionSpec that a key is compared with. */
  datatype Field = Title | Short

  function FieldOf(entry: OptionSpec, field: Field): string {
    match field
    case Title => entry.title
    case Short => entry.short
  }

  /** The schema as a caller hands it over: either list may be missing. */
  datatype RawSchema = RawSchema(flags: Option<seq<OptionSpec>>, kwargs: Option<seq<OptionSpec>>)

  /** The schema the parser searches, both lists present. */
  datatype Schema = Schema(flags: seq<OptionSpec>, kwargs: seq<OptionSpec>)

  /** A missing list stands for the empty list. */
  function Normalize(raw: RawSchema): Schema {
    Schema(if raw.flags.Some? then raw.flags.value else [],
           if raw.kwargs.Some? then raw.kwargs.value else [])
  }

  /** What a parse returns; a keyword option given last has the value None. */
  datatype ParseResult = ParseResult(args: seq<string>, flags: seq<string>, kwargs: map<string, Option<string>>)

  predicate StartsWith(s: string, prefix: string) {
    |prefix| <= |s| && s[..|prefix|] == prefix
  }

  /** Python truthiness of a looked-up title: None and "" are false. */
  predicate Truthy(title: Option<string>) {
    title.Some? && title.value != ""
  }

  // ---------------------------------------------------------------------------
  // First-match lookup
  // ---------------------------------------------------------------------------

  /** Entry `k` is the first entry of `list` whose `field` equals `value`. */
  ghost predicate IsFirstMatch(list: seq<OptionSpec>, field: Field, value: string, k: int) {
    && 0 <= k < |list|
    && FieldOf(list[k], field) == value
    && forall j :: 0 <= j < k ==> FieldOf(list[j], field) != value
  }

  /**
   * The title of the first entry whose `field` equals `value`, or None when
   * no entry matches. The first match decides even when its title is "".
   */
  function FirstTitle(list: seq<OptionSpec>, field: Field, value: string): Option<string> {
    if |list| == 0 then None
    else if FieldOf(list[0], field) == value then Some(list[0].title)
    else FirstTitle(list[1..], field, value)
  }

  /** FirstTitle finds nothing exactly when no entry matches. */
  lemma {:induction false} FirstTitleNone(list: seq<OptionSpec>, field: Field, value: string)
    ensures FirstTitle(list, field, value).None? <==> forall k :: 0 <= k < |list| ==> FieldOf(list[k], field) != value
  {
    if |list| > 0 {
      FirstTitleNone(list[1..], field, value);
      assert forall k :: 1 <= k < |list| ==> list[k] == list[1..][k - 1];
    }
  }

  /** What FirstTitle finds is the title of an entry that matches. */
  lemma {:induction false} FirstTitleFound(list: seq<OptionSpec>, field: Field, value: string)
    ensures FirstTitle(list, field, value).Some? ==>
      exists e :: e in list && FieldOf(e, field) == value && e.title == FirstTitle(list, field, value).value
  {
    if |list| > 0 && FieldOf(list[0], field) != value {
      FirstTitleFound(list[1..], field, value);
    }
  }

  /** FirstTitle returns the title of the first matching entry. */
  lemma {:induction false} FirstTitleIsFirstMatch(list: seq<OptionSpec>, field: Field, value: string, k: int)
    requires IsFirstMatch(list, field, value, k)
    ensures FirstTitle(list, field, value) == Some(list[k].title)
    decreases k
  {
    if k > 0 {
      assert FieldOf(list[0], field) != value;
      assert IsFirstMatch(list[1..], field, value, k - 1) by {
        forall j | 0 <= j < k - 1 ensures FieldOf(list[1..][j], field) != value {
          assert list[1..][j] == list[j + 1];
        }
      }
      FirstTitleIsFirstMatch(list[1..], field, value, k - 1);
    }
  }

  // ---------------------------------------------------------------------------
  // Specification of a parse, position by position
  // ---------------------------------------------------------------------------

  /**
   * What a token would do if the main loop read it: a positional token, or an
   * option key with the flag title it records and the keyword title it binds
   * (each None when nothing is recorded).
   */
  datatype Role = Positional | Named(flag: Option<string>, kwarg: Option<string>)

  /** A looked-up title is recorded only when truthy. */
  function Recorded(title: Option<string>): Option<string> {
    if Truthy(title) then title else None
  }

  /** The two independent lookups `_find_in_schema` makes for one key. */
  function Resolve(schema: Schema, field: Field, key: string): Role {
    Named(Recorded(FirstTitle(schema.flags, field, key)), Recorded(FirstTitle(schema.kwargs, field, key)))
  }

  /** "--" is checked before "-": `--key` is matched by title, `-key` by short. */
  function Classify(schema: Schema, token: string): Role {
    if StartsWith(token, "--") then Resolve(schema, Title, token[2..])
    else if StartsWith(token, "-") then Resolve(schema, Short, token[1..])
    else Positional
  }

  /** The role of every token. */
  function Roles(schema: Schema, tokens: seq<string>): seq<Role> {
    seq(|tokens|, j requires 0 <= j < |tokens| => Classify(schema, tokens[j]))
  }

  /** An entry with this role takes the next token as a keyword value. */
  predicate TakesValue(role: Role) {
    role.Named? && role.kwarg.Some?
  }

  /**
   * Token `j` is read by the main loop as an `entry`. The only other fate of a
   * token is to be taken as the value of the keyword option just before it.
   */
  predicate IsEntry(roles: seq<Role>, j: nat)
    requires j < |roles|
    decreases j
  {
    j == 0 || !(IsEntry(roles, j - 1) && TakesValue(roles[j - 1]))
  }

  /** What token `j` adds to `acc`: nothing unless it is an entry. */
  function Record(roles: seq<Role>, tokens: seq<string>, j: nat, acc: ParseResult): ParseResult
    requires |roles| == |tokens| && j < |tokens|
  {
    if !IsEntry(roles, j) then acc
    else match roles[j]
      case Positional => acc.(args := acc.args + [tokens[j]])
      case Named(flag, kwarg) =>
        ParseResult(
          acc.args,
          if flag.Some? then acc.flags + [flag.value] else acc.flags,
          if kwarg.Some? then acc.kwargs[kwarg.value := if j + 1 < |tokens| then Some(tokens[j + 1]) else None]
          else acc.kwargs)
  }

  /** The result after the tokens before position `n` have been classified. */
  function Summary(roles: seq<Role>, tokens: seq<string>, n: nat): ParseResult
    requires |roles| == |tokens| && n <= |tokens|
    decreases n
  {
    if n == 0 then ParseResult([], [], map[])
    else Record(roles, tokens, n - 1, Summary(roles, tokens, n - 1))
  }

  /** The result of parsing all of `tokens`. */
  function Parsed(schema: Schema, tokens: seq<string>): ParseResult {
    Summary(Roles(schema, tokens), tokens, |tokens|)
  }

  /** Summary grows by one Record per position. */
  lemma SummaryStep(roles: seq<Role>, tokens: seq<string>, j: nat)
    requires |roles| == |tokens| && j < |tokens|
    ensures Summary(roles, tokens, j + 1) == Record(roles, tokens, j, Summary(roles, tokens, j))
  {
  }

  /**
   * Reading the entry at `at` moves the cursor past it and past the value it
   * takes, if any; the cursor then rests on an entry again or at the end.
   */
  lemma EntryRecorded(roles: seq<Role>, tokens: seq<string>, at: nat, result: ParseResult, cursor: nat)
    requires |roles| == |tokens| && at < |tokens| && IsEntry(roles, at)
    requires result == Record(roles, tokens, at, Summary(roles, tokens, at))
    requires cursor == if TakesValue(roles[at]) && at + 1 < |tokens| then at + 2 else at + 1
    ensures cursor <= |tokens|
    ensures cursor < |tokens| ==> IsEntry(roles, cursor)
    ensures result == Summary(roles, tokens, cursor)
  {
    SummaryStep(roles, tokens, at);
    if TakesValue(roles[at]) && at + 1 < |tokens| {
      ValueSkipped(roles, tokens, at);
      assert cursor == at + 2;
    } else {
      assert cursor == at + 1;
    }
  }

  /** The token taken as a keyword value adds nothing and is not an entry. */
  lemma ValueSkipped(roles: seq<Role>, tokens: seq<string>, at: nat)
    requires |roles| == |tokens| && at + 1 < |tokens| && IsEntry(roles, at) && TakesValue(roles[at])
    ensures !IsEntry(roles, at + 1)
    ensures Summary(roles, tokens, at + 2) == Summary(roles, tokens, at + 1)
  {
    SummaryStep(roles, tokens, at + 1);
  }

  // ---------------------------------------------------------------------------
  // The parser
  // ---------------------------------------------------------------------------

  /** `next(arg_list, None)`: the token under the cursor, or None at the end. */
  method Next(input: seq<string>, cursor: nat) returns (token: Option<string>, cursor': nat)
    requires cursor <= |input|
    ensures cursor < |input| ==> token == Some(input[cursor]) && cursor' == cursor + 1
    ensures cursor == |input| ==> token == None && cursor' == cursor
  {
    if cursor < |input| {
      token, cursor' := Some(input[cursor]), cursor + 1;
    } else {
      token, cursor' := None, cursor;
    }
  }

  /** `_find_nested_value`: scan `list` for the first entry whose `field` is `value`. */
  method FindNestedValue(list: seq<OptionSpec>, field: Field, value: string) returns (r: Option<string>)
    ensures r == FirstTitle(list, field, value)
  {
    for k := 0 to |list|
      invariant forall j :: 0 <= j < k ==> FieldOf(list[j], field) != value
    {
      if FieldOf(list[k], field) == value {
        FirstTitleIsFirstMatch(list, field, value, k);
        return Some(list[k].title);
      }
    }
    FirstTitleNone(list, field, value);
    return None;
  }

  /**
   * `_find_in_schema`: resolve `value` (compared with `field`) against the flag
   * list and, independently, against the keyword list. A truthy flag title is
   * appended to the flags; a truthy keyword title takes the token under the
   * cursor (None at the end) as its value and advances the cursor.
   */
  method FindInSchema(known: Schema, field: Field, value: string, input: seq<string>, cursor: nat, result: ParseResult)
    returns (result': ParseResult, cursor': nat)
    requires cursor <= |input|
    ensures var role := Resolve(known, field, value);
      && result'.args == result.args
      && result'.flags == (if role.flag.Some? then result.flags + [role.flag.value] else result.flags)
      && if role.kwarg.Some? then
           && cursor' == (if cursor < |input| then cursor + 1 else cursor)
           && result'.kwargs == result.kwargs[role.kwarg.value := if cursor < |input| then Some(input[cursor]) else None]
         else
           cursor' == cursor && result'.kwargs == result.kwargs
  {
    result', cursor' := result, cursor;
    var findFlag := FindNestedValue(known.flags, field, value);
    if Truthy(findFlag) {
      result' := result'.(flags := result'.flags + [findFlag.value]);
    }
    var findKwarg := FindNestedValue(known.kwargs, field, value);
    if Truthy(findKwarg) {
      var next;
      next, cursor' := Next(input, cursor');
      result' := result'.(kwargs := result'.kwargs[findKwarg.value := next]);
    }
  }

  /** `Command.parse`: one left-to-right pass over `input` with a shared cursor. */
  method Parse(schema: RawSchema, input: seq<string>) returns (result: ParseResult)
    ensures result == Parsed(Normalize(schema), input)
  {
    var known := Normalize(schema);
    ghost var roles := Roles(known, input);
    result := ParseResult([], [], map[]);
    var cursor: nat := 0;
    while true
      invariant cursor <= |input|
      invariant cursor < |input| ==> IsEntry(roles, cursor)
      invariant result == Summary(roles, input, cursor)
      decreases |input| - cursor
    {
      var entry;
      entry, cursor := Next(input, cursor);
      if entry.None? {
        break;
      }
      var at := cursor - 1;
      var token := entry.value;
      assert roles[at] == Classify(known, token);
      if StartsWith(token, "--") {
        result, cursor := FindInSchema(known, Title, token[2..], input, cursor, result);
      } else if StartsWith(token, "-") {
        result, cursor := FindInSchema(known, Short, token[1..], input, cursor, result);
      } else {
        result := result.(args := result.args + [token]);
      }
      EntryRecorded(roles, input, at, result, cursor);
    }
  }
}
