/** JSON pointers (RFC 6901): the validator and the walker of internal/artifacts/contract.go,
    and their independently written counterparts in internal/catalog/catalog.go. */
module Pointer {
  import opened Text
  import Tokens

  // ---- Escapes ----

  /** The decoding both walkers apply to a token: two replacements, one after the other. */
  function Decoded(token: string): string {
    Tokens.ReplaceAll(Tokens.ReplaceAll(token, "~1", "/"), "~0", "~")
  }

  /** One pass over the token, as sections 3 and 4 of RFC 6901 describe it. */
  function Unescaped(token: string): string {
    if token == [] then []
    else if HasPrefix(token, "~1") then "/" + Unescaped(token[2..])
    else if HasPrefix(token, "~0") then "~" + Unescaped(token[2..])
    else [token[0]] + Unescaped(token[1..])
  }

  function Escaped(name: string): string {
    if name == [] then []
    else (if name[0] == '~' then "~0" else if name[0] == '/' then "~1" else [name[0]]) + Escaped(name[1..])
  }

  /** The first replacement leaves a zero at the front exactly where it finds one. */
  lemma LeadingZero(s: string)
    ensures var r := Tokens.ReplaceAll(s, "~1", "/"); (r != [] && r[0] == '0') <==> (s != [] && s[0] == '0')
  {
    if s != [] && HasPrefix(s, "~1") {
      assert s[0] == "~1"[0];
    }
  }

  lemma TwoCharacters(s: string, a: char, b: char)
    ensures HasPrefix(s, [a, b]) <==> |s| >= 2 && s[0] == a && s[1] == b
  {
    if |s| >= 2 && s[0] == a && s[1] == b {
      assert s[..2] == [a, b];
    }
  }

  /** For every token the two replacements equal the one pass: in this order no escape is
      decoded twice and none is lost. */
  lemma {:induction false} DecodedIsUnescaped(s: string)
    ensures Decoded(s) == Unescaped(s)
    decreases |s|
  {
    if s != [] {
      TwoCharacters(s, '~', '1');
      TwoCharacters(s, '~', '0');
      if HasPrefix(s, "~1") {
        DecodedSlash(s);
      } else if HasPrefix(s, "~0") {
        DecodedTilde(s);
      } else {
        DecodedPlain(s);
      }
    }
  }

  lemma DecodedSlash(s: string)
    requires HasPrefix(s, "~1")
    ensures Decoded(s) == Unescaped(s)
    decreases |s|, 0
  {
    DecodedIsUnescaped(s[2..]);
    var r := Tokens.ReplaceAll(s[2..], "~1", "/");
    assert Tokens.ReplaceAll(s, "~1", "/") == "/" + r;
    TwoCharacters("/" + r, '~', '0');
    assert ("/" + r)[1..] == r;
  }

  lemma DecodedTilde(s: string)
    requires HasPrefix(s, "~0")
    ensures Decoded(s) == Unescaped(s)
    decreases |s|, 0
  {
    TwoCharacters(s, '~', '1');
    TwoCharacters(s, '~', '0');
    TwoCharacters(s[1..], '~', '1');
    DecodedIsUnescaped(s[2..]);
    var r := Tokens.ReplaceAll(s[2..], "~1", "/");
    assert s[1..][1..] == s[2..];
    assert Tokens.ReplaceAll(s[1..], "~1", "/") == "0" + r;
    assert Tokens.ReplaceAll(s, "~1", "/") == "~" + ("0" + r) == "~0" + r;
    assert ("~0" + r)[2..] == r;
  }

  lemma DecodedPlain(s: string)
    requires s != [] && !HasPrefix(s, "~1") && !HasPrefix(s, "~0")
    ensures Decoded(s) == Unescaped(s)
    decreases |s|, 0
  {
    DecodedIsUnescaped(s[1..]);
    var r := Tokens.ReplaceAll(s[1..], "~1", "/");
    var all := [s[0]] + r;
    assert Tokens.ReplaceAll(s, "~1", "/") == all;
    LeadingZero(s[1..]);
    TwoCharacters(s, '~', '0');
    TwoCharacters(all, '~', '0');
    assert all[1..] == r;
  }

  lemma {:induction false} UnescapedUndoesEscaped(name: string)
    ensures Unescaped(Escaped(name)) == name
  {
    if name != [] {
      UnescapedUndoesEscaped(name[1..]);
      var rest := Escaped(name[1..]);
      var s := Escaped(name);
      TwoCharacters(s, '~', '1');
      TwoCharacters(s, '~', '0');
      if name[0] == '~' || name[0] == '/' {
        assert s[2..] == rest;
      } else {
        assert s[1..] == rest;
      }
    }
  }

  lemma {:induction false} EscapedHasNoSlash(name: string)
    ensures '/' !in Escaped(name)
  {
    if name != [] {
      EscapedHasNoSlash(name[1..]);
    }
  }

  // ---- Validators ----

  /** Every tilde is followed by 0 or 1. */
  predicate EscapesValid(s: string) {
    forall i :: 0 <= i < |s| && s[i] == '~' ==> i + 1 < |s| && (s[i + 1] == '0' || s[i + 1] == '1')
  }

  /** internal/artifacts/contract.go: validatePointer; the scan skips the character behind a
      valid escape. */
  method ValidatePointer(pointer: string) returns (ok: bool)
    ensures ok <==> pointer == "" || (HasPrefix(pointer, "/") && EscapesValid(pointer))
  {
    if pointer == "" {
      return true;
    }
    if !HasPrefix(pointer, "/") {
      return false;
    }
    var position := 0;
    while position < |pointer|
      invariant position <= |pointer|
      invariant forall i :: 0 <= i < position && pointer[i] == '~' ==> i + 1 < |pointer| && (pointer[i + 1] == '0' || pointer[i + 1] == '1')
    {
      if pointer[position] == '~' {
        if position + 1 >= |pointer| || (pointer[position + 1] != '0' && pointer[position + 1] != '1') {
          return false;
        }
        position := position + 1;
      }
      position := position + 1;
    }
    return true;
  }

  /** internal/catalog/catalog.go: validJSONPointer. */
  method ValidJSONPointer(value: string) returns (ok: bool)
    ensures ok <==> HasPrefix(value, "/") && |value| <= 512 && EscapesValid(value)
  {
    if !HasPrefix(value, "/") || |value| > 512 {
      return false;
    }
    for position := 0 to |value|
      invariant forall i :: 0 <= i < position && value[i] == '~' ==> i + 1 < |value| && (value[i + 1] == '0' || value[i + 1] == '1')
    {
      if value[position] == '~' && (position + 1 >= |value| || (value[position + 1] != '0' && value[position + 1] != '1')) {
        return false;
      }
    }
    return true;
  }

  /** The two validators agree on every pointer that starts with a slash and has at most 512
      bytes; longer ones only the artifact validator accepts, the empty one likewise. */
  method ValidatorsAgree(pointer: string) returns (artifact: bool, catalog: bool)
    ensures HasPrefix(pointer, "/") && |pointer| <= 512 ==> artifact == catalog
    ensures catalog ==> artifact
    ensures artifact && !catalog <==> pointer == "" || (HasPrefix(pointer, "/") && |pointer| > 512 && EscapesValid(pointer))
  {
    artifact := ValidatePointer(pointer);
    catalog := ValidJSONPointer(pointer);
  }

  // ---- Splitting ----

  /** strings.Split(s, "/"). */
  function Split(s: string): seq<string> {
    if s == [] then [[]]
    else
      var rest := Split(s[1..]);
      if s[0] == '/' then [[]] + rest else [[s[0]] + rest[0]] + rest[1..]
  }

  function TrimSlash(pointer: string): string {
    if HasPrefix(pointer, "/") then pointer[1..] else pointer
  }

  /** The tokens a walker visits. */
  function TokensOf(pointer: string): seq<string> {
    Split(TrimSlash(pointer))
  }

  /** The pointer to a path of names, escaped as in RFC 6901. */
  function PointerTo(path: seq<string>): string {
    if path == [] then "" else "/" + Escaped(path[0]) + PointerTo(path[1..])
  }

  lemma {:induction false} SplitField(field: string, rest: string)
    requires '/' !in field && (rest == [] || rest[0] == '/')
    ensures Split(field + rest) == [field] + if rest == [] then [] else Split(rest[1..])
    decreases |field|
  {
    if field == [] {
      assert field + rest == rest;
    } else {
      SplitField(field[1..], rest);
      assert (field + rest)[1..] == field[1..] + rest;
      assert [field[0]] + field[1..] == field;
    }
  }

  function EscapedAll(path: seq<string>): (tokens: seq<string>)
    ensures |tokens| == |path| && forall i :: 0 <= i < |path| ==> tokens[i] == Escaped(path[i])
  {
    seq(|path|, i requires 0 <= i < |path| => Escaped(path[i]))
  }

  /** The tokens of a pointer to a non-empty path are the escaped names. */
  lemma {:induction false} TokensOfPath(path: seq<string>)
    requires path != []
    ensures TokensOf(PointerTo(path)) == EscapedAll(path)
  {
    var first, rest := Escaped(path[0]), PointerTo(path[1..]);
    PathOpens(path);
    EscapedHasNoSlash(path[0]);
    SplitField(first, rest);
    if |path| == 1 {
      assert EscapedAll(path) == [first];
    } else {
      TokensOfPath(path[1..]);
      PathOpens(path[1..]);
      assert EscapedAll(path) == [first] + EscapedAll(path[1..]);
    }
  }

  lemma PathOpens(path: seq<string>)
    requires path != []
    ensures TrimSlash(PointerTo(path)) == Escaped(path[0]) + PointerTo(path[1..])
    ensures PointerTo(path)[0] == '/' && (|path| == 1 ==> PointerTo(path[1..]) == [])
  {
    assert PointerTo(path) == ['/'] + (Escaped(path[0]) + PointerTo(path[1..]));
  }

  /** The tokens, with a slash between them. */
  function Slashed(tokens: seq<string>): string
    requires tokens != []
  {
    if |tokens| == 1 then tokens[0] else tokens[0] + "/" + Slashed(tokens[1..])
  }

  /** Splitting is cutting at every slash. */
  lemma {:induction false} SplitExactly(s: string)
    ensures Split(s) != [] && Slashed(Split(s)) == s
    ensures forall k :: 0 <= k < |Split(s)| ==> '/' !in Split(s)[k]
  {
    if s != [] {
      var rest, tokens := Split(s[1..]), Split(s);
      SplitExactly(s[1..]);
      assert s == [s[0]] + s[1..];
      if s[0] == '/' {
        assert tokens[1..] == rest;
      } else if |rest| > 1 {
        assert tokens[1..] == rest[1..];
        assert tokens[0] + "/" + Slashed(rest[1..]) == [s[0]] + (rest[0] + "/" + Slashed(rest[1..]));
      }
    }
  }

  // ---- Walkers ----

  datatype Json = Atom(text: string) | Array(items: seq<Json>) | Object(fields: map<string, Json>)

  const INDEX_LIMIT: nat := 0x8000_0000

  /** strconv.ParseUint(token, 10, 31): decimal digits, leading zeros included. */
  function ParseIndex(token: string): Option<nat> {
    if token != [] && (forall i :: 0 <= i < |token| ==> IsDigit(token[i])) && DecimalValue(token) < INDEX_LIMIT
    then Some(DecimalValue(token)) else None
  }

  /** One step from a value along a decoded name. */
  function Child(value: Json, name: string): Option<Json> {
    match value
    case Object(fields) => if name in fields then Some(fields[name]) else None
    case Array(items) =>
      var index := ParseIndex(name);
      if index.Some? && index.value < |items| then Some(items[index.value]) else None
    case Atom(_) => None
  }

  /** The node at the end of a path of names. */
  function At(value: Json, path: seq<string>): Option<Json>
    decreases |path|
  {
    if path == [] then Some(value)
    else
      var child := Child(value, path[0]);
      if child.Some? then At(child.value, path[1..]) else None
  }

  function DecodedTokens(tokens: seq<string>): (names: seq<string>)
    ensures |names| == |tokens| && forall i :: 0 <= i < |tokens| ==> names[i] == Decoded(tokens[i])
  {
    seq(|tokens|, i requires 0 <= i < |tokens| => Decoded(tokens[i]))
  }

  /** The path a walker follows for a pointer. */
  function PathOf(pointer: string): seq<string> {
    if pointer == "" then [] else DecodedTokens(TokensOf(pointer))
  }

  /** The walk in the middle of ExtractJSON. */
  method WalkPointer(root: Json, pointer: string) returns (value: Option<Json>)
    ensures value == At(root, PathOf(pointer))
  {
    value := Some(root);
    if pointer == "" {
      return;
    }
    var tokens := TokensOf(pointer);
    ghost var path := DecodedTokens(tokens);
    for i := 0 to |tokens|
      invariant value.Some? && At(root, path) == At(value.value, path[i..])
    {
      var token := Decoded(tokens[i]);
      assert path[i..][0] == token && path[i..][1..] == path[i + 1..];
      match value.value {
        case Object(fields) =>
          if token !in fields {
            return None;
          }
          value := Some(fields[token]);
        case Array(items) =>
          var index := ParseIndex(token);
          if index.None? || index.value >= |items| {
            return None;
          }
          value := Some(items[index.value]);
        case Atom(_) => return None;
      }
    }
  }

  /** A step result as the decoder sees it: no JSON text, a text with more behind it, or one document. */
  datatype StepResult = Undecodable | Trailing | Document(root: Json)

  const MAX_ARTIFACT_BYTES: nat := 16 * 1024 * 1024

  /** What an artifact source selects. `size` is the length of a value's JSON text. */
  function Extracted(raw: StepResult, size: Json -> nat, path: seq<string>): Option<Json> {
    if !raw.Document? then None
    else
      var value := At(raw.root, path);
      if value.Some? && size(value.value) > MAX_ARTIFACT_BYTES then None else value
  }

  /** internal/artifacts/contract.go: ExtractJSON. */
  method ExtractJSON(raw: StepResult, size: Json -> nat, pointer: string) returns (value: Option<Json>)
    ensures value == Extracted(raw, size, PathOf(pointer))
  {
    if raw.Undecodable? || raw.Trailing? {
      return None;
    }
    value := WalkPointer(raw.root, pointer);
    if value.Some? && size(value.value) > MAX_ARTIFACT_BYTES {
      return None;
    }
  }

  /** internal/catalog/catalog.go: pointerValue; it walks objects only and looks the tokens of
      an empty pointer up as well. */
  method PointerValue(root: map<string, Json>, pointer: string) returns (value: Option<Json>)
    ensures value == ObjectAt(Object(root), DecodedTokens(TokensOf(pointer)))
  {
    value := Some(Object(root));
    var tokens := TokensOf(pointer);
    ghost var path := DecodedTokens(tokens);
    for i := 0 to |tokens|
      invariant value.Some? && ObjectAt(Object(root), path) == ObjectAt(value.value, path[i..])
    {
      var token := Decoded(tokens[i]);
      assert path[i..][0] == token && path[i..][1..] == path[i + 1..];
      if !value.value.Object? || token !in value.value.fields {
        return None;
      }
      value := Some(value.value.fields[token]);
    }
  }

  /** The node at the end of a path that leads through objects only. */
  function ObjectAt(value: Json, path: seq<string>): Option<Json>
    decreases |path|
  {
    if path == [] then Some(value)
    else if value.Object? && path[0] in value.fields then ObjectAt(value.fields[path[0]], path[1..])
    else None
  }

  /** An array lies on the way along the path. */
  predicate CrossesArray(value: Json, path: seq<string>)
    decreases |path|
  {
    path != [] && (value.Array? || (Child(value, path[0]).Some? && CrossesArray(Child(value, path[0]).value, path[1..])))
  }

  /** Off arrays the walkers agree; behind an array one fails, so there they agree exactly if
      the other fails as well. */
  lemma {:induction false} WalkersAgree(value: Json, path: seq<string>)
    ensures ObjectAt(value, path) == At(value, path) <==> !CrossesArray(value, path) || At(value, path).None?
    ensures CrossesArray(value, path) ==> ObjectAt(value, path) == None
    decreases |path|
  {
    if path != [] && Child(value, path[0]).Some? {
      WalkersAgree(Child(value, path[0]).value, path[1..]);
    }
  }

  /** The two walkers give the same answer exactly on the non-empty pointers whose way crosses no
      array, or on which both fail; on the empty pointer one returns the document and the other
      its member "". */
  method CompareWalkers(root: map<string, Json>, pointer: string) returns (artifact: Option<Json>, catalog: Option<Json>)
    ensures artifact == catalog <==> pointer != "" && (!CrossesArray(Object(root), PathOf(pointer)) || artifact.None?)
    ensures pointer == "" ==> artifact == Some(Object(root)) && catalog == if "" in root then Some(root[""]) else None
  {
    artifact := WalkPointer(Object(root), pointer);
    catalog := PointerValue(root, pointer);
    WalkersAgree(Object(root), PathOf(pointer));
    if pointer == "" {
      assert TokensOf("") == [""];
      assert DecodedTokens([""]) == [""];
    }
  }

  lemma PathOfPointer(path: seq<string>)
    ensures PathOf(PointerTo(path)) == path
  {
    if path != [] {
      TokensOfPath(path);
      var tokens := TokensOf(PointerTo(path));
      forall i | 0 <= i < |path| ensures Decoded(tokens[i]) == path[i] {
        DecodedIsUnescaped(tokens[i]);
        UnescapedUndoesEscaped(path[i]);
      }
    }
  }

  /** The pointer to a path leads to exactly the node at that path, whatever characters the
      names hold, unless its text is too long for an artifact. */
  method ExtractAtPath(raw: StepResult, size: Json -> nat, path: seq<string>) returns (value: Option<Json>)
    ensures value == Extracted(raw, size, path)
  {
    PathOfPointer(path);
    value := ExtractJSON(raw, size, PointerTo(path));
  }

  lemma {:induction false} EscapedIsValid(name: string)
    ensures EscapesValid(Escaped(name))
  {
    if name != [] {
      EscapedIsValid(name[1..]);
      EscapesConcat(if name[0] == '~' then "~0" else if name[0] == '/' then "~1" else [name[0]], Escaped(name[1..]));
    }
  }

  lemma EscapesConcat(a: string, b: string)
    requires EscapesValid(a) && EscapesValid(b)
    ensures EscapesValid(a + b)
  {
    var s := a + b;
    forall i | 0 <= i < |s| && s[i] == '~' ensures i + 1 < |s| && (s[i + 1] == '0' || s[i + 1] == '1') {
      if i < |a| {
        assert a[i] == '~' && s[i + 1] == a[i + 1];
      } else {
        assert b[i - |a|] == '~' && s[i + 1] == b[i - |a| + 1];
      }
    }
  }

  lemma {:induction false} PointerToIsValid(path: seq<string>)
    ensures EscapesValid(PointerTo(path)) && (path != [] ==> HasPrefix(PointerTo(path), "/"))
  {
    if path != [] {
      PointerToIsValid(path[1..]);
      EscapedIsValid(path[0]);
      EscapesConcat("/", Escaped(path[0]));
      EscapesConcat("/" + Escaped(path[0]), PointerTo(path[1..]));
    }
  }

  // ---- Examples and laws, in plain text ----

  /** The escapes of section 3 of RFC 6901, and the text on which the order of the two
      replacements matters. */
  lemma DecodedEscapes()
    ensures Decoded("~0") == "~" && Decoded("~1") == "/" && Decoded("~01") == "~1" && Decoded("a~1b~0c") == "a/b~c"
  {
    DecodedIsUnescaped("~0");
    DecodedIsUnescaped("~1");
    DecodedIsUnescaped("~01");
    DecodedIsUnescaped("a~1b~0c");
    TwoCharacters("~0", '~', '1');
    TwoCharacters("~01", '~', '1');
    assert "~0"[2..] == [] && "~1"[2..] == [] && "~01"[2..] == "1";
    OtherFirst("1");
    assert "1"[1..] == [];
    LettersAround();
  }

  lemma OtherFirst(s: string)
    requires s != [] && s[0] != '~'
    ensures Unescaped(s) == [s[0]] + Unescaped(s[1..])
  {
    TwoCharacters(s, '~', '1');
    TwoCharacters(s, '~', '0');
  }

  lemma LettersAround()
    ensures Unescaped("a~1b~0c") == "a/b~c"
  {
    var s := "a~1b~0c";
    OtherFirst(s);
    assert s[1..] == "~1b~0c" && s[1..][2..] == "b~0c";
    TwoCharacters(s[1..], '~', '1');
    OtherFirst("b~0c");
    assert "b~0c"[1..] == "~0c" && "~0c"[2..] == "c";
    TwoCharacters("~0c", '~', '1');
    TwoCharacters("~0c", '~', '0');
    OtherFirst("c");
    assert "c"[1..] == [];
  }

  /** Names are escaped character by character. */
  lemma {:induction false} EscapedConcat(a: string, b: string)
    ensures Escaped(a + b) == Escaped(a) + Escaped(b)
  {
    if a == [] {
      assert a + b == b;
    } else {
      var first := if a[0] == '~' then "~0" else if a[0] == '/' then "~1" else [a[0]];
      assert (a + b)[1..] == a[1..] + b && (a + b)[0] == a[0];
      EscapedConcat(a[1..], b);
      assert first + (Escaped(a[1..]) + Escaped(b)) == (first + Escaped(a[1..])) + Escaped(b);
    }
  }

  /** Names without a tilde and a slash stay as they are. */
  lemma {:induction false} EscapedPlain(a: string)
    requires '~' !in a && '/' !in a
    ensures Escaped(a) == a
  {
    if a != [] {
      EscapedPlain(a[1..]);
    }
  }

  lemma EscapedSpecials()
    ensures Escaped("~") == "~0" && Escaped("/") == "~1"
  {
    assert "~"[1..] == [] && "/"[1..] == [];
  }

  /** Following a path is following its parts. */
  lemma {:induction false} AtConcat(value: Json, a: seq<string>, b: seq<string>)
    ensures At(value, a + b) == if At(value, a).Some? then At(At(value, a).value, b) else None
    decreases |a|
  {
    if a == [] {
      assert a + b == b;
    } else {
      assert (a + b)[1..] == a[1..] + b;
      if Child(value, a[0]).Some? {
        AtConcat(Child(value, a[0]).value, a[1..], b);
      }
    }
  }

  /** One step: a member of an object by its name, an item of an array by its number in decimal
      digits below 2 to the 31, and nothing below any other value. */
  lemma AtOneStep(value: Json, name: string)
    ensures value.Object? ==> At(value, [name]) == if name in value.fields then Some(value.fields[name]) else None
    ensures value.Atom? ==> At(value, [name]) == None
    ensures value.Array? ==>
              (At(value, [name]).Some? <==>
                 name != "" && (forall i :: 0 <= i < |name| ==> '0' <= name[i] <= '9') && DecimalValue(name) < 2147483648 && DecimalValue(name) < |value.items|)
    ensures value.Array? && At(value, [name]).Some? ==> At(value, [name]) == Some(value.items[DecimalValue(name)])
  {
    assert [name][1..] == [];
  }

  /** Every item that can be counted in 31 bits is found under its number. */
  lemma AtIndex(items: seq<Json>, i: nat)
    requires i < |items| && i < 2147483648
    ensures At(Array(items), [Decimal(i)]) == Some(items[i])
  {
    DecimalRoundTrip(i);
    AtOneStep(Array(items), Decimal(i));
  }

  /** What an artifact source selects: the node of the only document, if its text takes at most
      16 MiB. */
  lemma ExtractedExactly(raw: StepResult, size: Json -> nat, path: seq<string>, value: Json)
    ensures Extracted(raw, size, path) == Some(value) <==> raw.Document? && At(raw.root, path) == Some(value) && size(value) <= 16777216
  {
  }
}
