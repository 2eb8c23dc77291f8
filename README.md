# Command-line token classifier, modelled in Dafny

This project models `Command.parse` from `py_win_bash/command.py`. It is a
parser driven by a schema. The schema declares flags and keyword options.
Each one is an `OptionSpec` with a `title`, matched by `--title`, and a
`short`, matched by `-short`. The parser reads a list of tokens from left to
right and sorts them into:

- `args`: positional tokens, in input order;
- `flags`: the titles of matched flags, in the order they were met, with duplicates kept;
- `kwargs`: a map from a keyword option's title to the raw token after it, or
  `None` when the option is the last token.

Files:

- `wrappers.dfy`: the `Option` datatype. It stands for Python's `None`.
- `command.dfy` (module `Command`) holds three parts:
  - The data model. `RawSchema` is the schema as passed in, and either list
    may be missing. `Normalize` turns it into a `Schema` with both lists.
    `ParseResult` is what a parse returns.
  - A position-by-position specification of the result, which does not use a
    cursor. `Classify` gives each token its `Role`. A token is `Positional`
    unless it starts with "-". Otherwise it is `Named`, carrying the flag
    title and the keyword title its key resolves to (`Resolve`). A title is
    kept only when it is truthy (`Recorded`). `IsEntry(roles, j)` holds when
    the main loop reads token `j`. That is the case for token 0, and for every
    token whose previous token was not an entry that binds a keyword option.
    `Record` gives what one entry adds to the result. `Summary(n)` folds
    `Record` over the first `n` positions. `Parsed` is the summary of every
    position.
  - The parser itself, written as imperative code with the same structure as
    the Python:
    - `Parse` has a `while true` loop over an index cursor.
    - `Next` stands for `next(arg_list, None)`.
    - `FindInSchema` is the nested `_find_in_schema`. It advances the same
      cursor when a keyword option takes its value.
    - `FindNestedValue` is the nested `_find_nested_value`, a `for` loop that
      returns at the first match.

  `Parse` is proved to return `Parsed(Normalize(schema), input)`. The loop
  invariant says two things: the result so far is the summary up to the
  cursor, and the cursor rests on an entry.
- `properties.dfy` (module `CommandProperties`): lemmas about `Parsed`, and
  the worked examples.

Two details of the code decide several edge cases:

- "--" is checked before "-". So `--x` is looked up by `title` only, a lone
  `-` looks up `short == ""`, and `--` looks up `title == ""`.
- A found title is used only if it is truthy (lines 52 and 57). The first
  matching entry ends the search (lines 37-40). So when that entry has the
  title `""`, nothing is recorded, no value is taken, and later entries are
  never tried. A plain reading of "append the matched entry's title" would
  miss this. The model follows the code (`Truthy`, `Recorded`,
  `Resolve`).

## Model

| member | source | states |
|---|---|---|
| `Command.FirstTitleNone` | py_win_bash/command.py:37-40 | the lookup finds nothing exactly when no entry's `title`/`short` field equals the key |
| `Command.FirstTitleFound` | py_win_bash/command.py:37-40 | a title the lookup finds belongs to an entry of the list whose field equals the key |
| `Command.FirstTitleIsFirstMatch` | py_win_bash/command.py:37-40 | the lookup returns the title of the first matching entry in list order, even an empty title |
| `Command.FindNestedValue` | py_win_bash/command.py:29-40 | the scanning loop returns exactly the first-match title, or None |
| `Command.Next` | py_win_bash/command.py:70-74 | reading the iterator yields the token under the cursor and advances it; at the end it yields None and the cursor stays |
| `Command.FindInSchema` | py_win_bash/command.py:42-64 | both lookups always run. A truthy flag title is appended to `flags`. A truthy keyword title binds the next raw token, or None at the end, and takes it from the cursor. Otherwise nothing changes and nothing is consumed. `args` is never touched |
| `Command.Parse` | py_win_bash/command.py:6-88 | the loop returns `Parsed(Normalize(schema), input)`, the position-by-position classification. It ends because every iteration consumes at least one token |
| `CommandProperties.PositionalIffPlain` | py_win_bash/command.py:77-86 | a token is classified as positional exactly when it does not start with "-"; a token starting with "--" is an option too |
| `CommandProperties.ClassifyDeclared` | py_win_bash/command.py:37-58 | the flag and keyword titles any token resolves to are non-empty titles of entries declared in the matching list |
| `CommandProperties.ParseEmpty` | py_win_bash/command.py:13-24 | an empty token list gives empty `args`, `flags` and `kwargs` for every schema, and a missing list is the empty list |
| `CommandProperties.ParseNoOptions` | py_win_bash/command.py:77-86 | when no token starts with "-", `args` is the whole input in order, and `flags` and `kwargs` are empty |
| `CommandProperties.ParseTitlesDeclared` | py_win_bash/command.py:37-58 | every recorded flag is the non-empty title of a declared flag, and every keyword key is the non-empty title of a declared keyword option |
| `CommandProperties.ParseBounds` | py_win_bash/command.py:67-86 | `|args| + |flags| <= |input|`, and at most `|input|` keyword keys |
| `CommandProperties.ParseKwargKeys` | py_win_bash/command.py:56-58 | a key is in `kwargs` exactly when some entry token names that keyword option |
| `CommandProperties.ParseKwargValue` | py_win_bash/command.py:56-74 | the last entry naming a keyword option fixes its value. The value is the raw next token, even one that starts with "-", or None if no token follows. That token is never read as an entry |
| `CommandProperties.DualMatch` | py_win_bash/command.py:50-58 | a key that names both a flag and a keyword option appends the flag title and also binds the next token |
| `CommandProperties.UnknownDropped` | py_win_bash/command.py:50-64 | an option entry that matches neither list can be deleted from the input without changing the parse |
| `CommandProperties.ShortFlagExample` | py_win_bash/command.py:80-82 | `["-v"]` with flag `verbose/v` gives `flags = ["verbose"]` |
| `CommandProperties.KwargExample` | py_win_bash/command.py:56-58 | `["--output", "file.txt"]` binds `output` to `"file.txt"`, and `["--output"]` binds it to None |
| `CommandProperties.UnknownExample` | py_win_bash/command.py:61-64 | `["--unknown", "x"]` with an empty schema gives `args = ["x"]` |
| `CommandProperties.DualExample` | py_win_bash/command.py:51-58 | `["--dual", "val"]` with `dual` in both lists gives `flags = ["dual"]` and `kwargs = {dual: "val"}` |
| `CommandProperties.MixedExample` | py_win_bash/command.py:67-86 | positional tokens, a long flag and a short keyword option mixed in one input are sorted as expected |
| `CommandProperties.ValueExample` | py_win_bash/command.py:56-58 | a value such as "-v" is taken raw, and a repeated keyword option overwrites the earlier value |
| `CommandProperties.EmptyTitleExample` | py_win_bash/command.py:37-57 | a first match with an empty title records nothing and consumes nothing, and a lone "-" or "--" looks up the empty key |

## Left out

- The dictionary-shaped schema and result are typed records (`RawSchema`, `Schema`, `ParseResult`). The `KeyError` raised for a schema entry without `title` or `short` is not modelled: entries are always well formed.
- Python truthiness is modelled only for titles. They are strings, so the only false value is `""`.
- The `entry is None` end test is modelled as the cursor reaching the end of the input. Tokens are strings, so a `None` inside the input cannot occur in the model.
- The TODO comments about raising on a missing value or an unknown option describe code that does not exist. No error path is modelled.
- The `Command` class is left out: `parse` is a static method and keeps no object state.
- The closure shares the iterator and the result dictionary between `parse` and `_find_in_schema`. The model threads the cursor and the result through `FindInSchema`'s parameters and results instead, so aliasing of that shared state is not modelled.
- How callers build the token list from the process arguments, and what they do with the result, are not part of this model.
