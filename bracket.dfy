/**
 * The pieces of the query provider's deep-object reading (query.go): the
 * bracket-path parser `path`, which reads a key suffix such as
 * `[role][user]` into `["role", "user"]`, and the walk that stores a value
 * under such a path in nested string-keyed maps.
 *
 * Go's `text/scanner` is replaced by a tokenizer that yields `[`, `]` and
 * maximal runs of other characters.
 */
module DeepObjects {
  import opened Wrappers
  import opened Strings
  import opened Assoc
  import opened Errors
  import opened Payloads

  datatype Token = Open | Close | Word(text: string)

  predicate IsBracket(c: char) { c == '[' || c == ']' }

  predicate BracketFree(s: string) {
    forall i :: 0 <= i < |s| ==> !IsBracket(s[i])
  }

  /** The length of the bracket-free run at the start of `k`. */
  function RunLength(k: string): (n: nat)
    ensures n <= |k| && BracketFree(k[..n])
    ensures n < |k| ==> IsBracket(k[n])
  {
    if k == [] || IsBracket(k[0]) then 0
    else
      var n := 1 + RunLength(k[1..]);
      assert k[..n] == [k[0]] + k[1..][..n - 1];
      n
  }

  /** The tokens of a key: each bracket alone, every other run of characters as one word. */
  function Tokens(k: string): (ts: seq<Token>)
    decreases |k|
  {
    if k == [] then []
    else if k[0] == '[' then [Open] + Tokens(k[1..])
    else if k[0] == ']' then [Close] + Tokens(k[1..])
    else
      var n := RunLength(k);
      [Word(k[..n])] + Tokens(k[n..])
  }

  /** The error `path` reports for the key `k`, whatever went wrong. */
  function Unparsable(k: string): Error {
    Prefixed(QueryOrigin, CannotParseKey(k))
  }

  /**
   * The `path` state machine from some token on: `[` opens (not twice),
   * `]` closes (only an open bracket), a word inside brackets is appended,
   * and the input must end with no bracket open.
   */
  function Parse(k: string, ts: seq<Token>, started: bool, acc: seq<string>): Result<seq<string>, Error> {
    if ts == [] then (if started then Err(Unparsable(k)) else Ok(acc))
    else match ts[0]
      case Open => if started then Err(Unparsable(k)) else Parse(k, ts[1..], true, acc)
      case Close => if !started then Err(Unparsable(k)) else Parse(k, ts[1..], false, acc)
      case Word(w) => if !started then Err(Unparsable(k)) else Parse(k, ts[1..], started, acc + [w])
  }

  function KeyPath(k: string): Result<seq<string>, Error> {
    Parse(k, Tokens(k), false, [])
  }

  /** `path`: the scanner loop with its `started` flag and its growing result. */
  method ParseKey(k: string) returns (r: Result<seq<string>, Error>)
    ensures r == KeyPath(k)
  {
    var tokens := Tokens(k);
    var result: seq<string> := [];
    var started := false;
    var index := 0;
    while index < |tokens|
      invariant 0 <= index <= |tokens|
      invariant Parse(k, tokens[index..], started, result) == KeyPath(k)
    {
      assert tokens[index..][1..] == tokens[index + 1..];
      match tokens[index] {
        case Open =>
          if started {
            return Err(Unparsable(k));
          }
          started := true;
        case Close =>
          if !started {
            return Err(Unparsable(k));
          }
          started := false;
        case Word(w) =>
          if !started {
            return Err(Unparsable(k));
          }
          result := result + [w];
      }
      index := index + 1;
    }
    if started {
      return Err(Unparsable(k));
    }
    return Ok(result);
  }

  /** A path written as the key suffix it is read from: `[k1][k2]...`. */
  function Render(keys: seq<string>): string {
    if keys == [] then "" else "[" + keys[0] + "]" + Render(keys[1..])
  }

  /** Keys that can be written inside brackets: non-empty and bracket-free. */
  predicate Writable(keys: seq<string>) {
    forall i :: 0 <= i < |keys| ==> keys[i] != "" && BracketFree(keys[i])
  }

  // ---------------------------------------------------------------------
  // Tokenizing and parsing rendered paths

  /** The run at the start of `k` has length `n` when `n` characters are bracket-free and a bracket or the end follows. */
  lemma {:induction false} RunLengthIs(k: string, n: nat)
    requires n <= |k| && forall i :: 0 <= i < n ==> !IsBracket(k[i])
    requires n < |k| ==> IsBracket(k[n])
    ensures RunLength(k) == n
    decreases n
  {
    if n > 0 {
      RunLengthIs(k[1..], n - 1);
    }
  }

  /** Tokenizing a string that starts with `[`. */
  lemma OpenFirst(x: string)
    ensures Tokens("[" + x) == [Open] + Tokens(x)
  {
    assert ("[" + x)[1..] == x;
  }

  /** A word followed by a bracket is one token. */
  lemma WordThenBracket(w: string, rest: string)
    requires w != [] && BracketFree(w) && rest != [] && IsBracket(rest[0])
    ensures Tokens(w + rest) == [Word(w)] + Tokens(rest)
  {
    var s := w + rest;
    assert s[0] == w[0];
    RunLengthIs(s, |w|);
    assert s[..|w|] == w && s[|w|..] == rest;
  }

  /** A bracket-free word alone is one token. */
  lemma WordAlone(w: string)
    requires w != [] && BracketFree(w)
    ensures Tokens(w) == [Word(w)]
  {
    RunLengthIs(w, |w|);
    assert w[..|w|] == w && w[|w|..] == [];
  }

  /** One bracketed key gives an open bracket, the key and a close bracket. */
  lemma GroupTokens(w: string, rest: string)
    requires w != [] && BracketFree(w)
    ensures Tokens("[" + w + "]" + rest) == [Open, Word(w), Close] + Tokens(rest)
  {
    var s := "[" + w + "]" + rest;
    assert s[1..] == w + ("]" + rest);
    WordThenBracket(w, "]" + rest);
    assert ("]" + rest)[1..] == rest;
  }

  /** A group `[w]` read from the closed state appends `w` and closes again. */
  lemma ParseGroup(k: string, w: string, ts: seq<Token>, acc: seq<string>)
    ensures Parse(k, [Open, Word(w), Close] + ts, false, acc) == Parse(k, ts, false, acc + [w])
  {
    var t1, t2, t3 := [Open, Word(w), Close] + ts, [Word(w), Close] + ts, [Close] + ts;
    assert t1[0] == Open && t1[1..] == t2;
    assert Parse(k, t1, false, acc) == Parse(k, t2, true, acc);
    assert t2[0] == Word(w) && t2[1..] == t3;
    assert Parse(k, t2, true, acc) == Parse(k, t3, true, acc + [w]);
    assert t3[0] == Close && t3[1..] == ts;
    assert Parse(k, t3, true, acc + [w]) == Parse(k, ts, false, acc + [w]);
  }

  /** Parsing the tokens of a rendered path collects its keys and returns to the closed state. */
  lemma {:induction false} ParseRendered(k: string, keys: seq<string>, b: string, acc: seq<string>)
    requires Writable(keys)
    ensures Parse(k, Tokens(Render(keys) + b), false, acc) == Parse(k, Tokens(b), false, acc + keys)
    decreases |keys|
  {
    if keys == [] {
      assert Render(keys) + b == b;
      assert acc + keys == acc;
    } else {
      var w, rest := keys[0], Render(keys[1..]);
      assert Render(keys) == "[" + w + "]" + rest;
      assert ("[" + w + "]" + rest) + b == "[" + w + "]" + (rest + b);
      GroupTokens(w, rest + b);
      ParseGroup(k, w, Tokens(rest + b), acc);
      assert Writable(keys[1..]) by {
        forall i | 0 <= i < |keys[1..]| ensures keys[1..][i] != "" && BracketFree(keys[1..][i]) {
          assert keys[1..][i] == keys[i + 1];
        }
      }
      ParseRendered(k, keys[1..], b, acc + [w]);
      assert acc + [w] + keys[1..] == acc + keys;
    }
  }

  // ---------------------------------------------------------------------
  // Properties of the bracket parser

  /** A path of writable keys, rendered in brackets, parses back to exactly those keys. */
  lemma PathRoundTrip(keys: seq<string>)
    requires Writable(keys)
    ensures KeyPath(Render(keys)) == Ok(keys)
  {
    var k := Render(keys);
    ParseRendered(k, keys, "", []);
    assert k + "" == k;
    assert Tokens("") == [];
    assert [] + keys == keys;
  }

  /** After any number of groups, a `]` with no bracket open is an error. */
  lemma StrayClose(keys: seq<string>, rest: string)
    requires Writable(keys) && rest != [] && rest[0] == ']'
    ensures KeyPath(Render(keys) + rest) == Err(Unparsable(Render(keys) + rest))
  {
    var k := Render(keys) + rest;
    ParseRendered(k, keys, rest, []);
  }

  /** After any number of groups, a token outside brackets is an error. */
  lemma WordOutside(keys: seq<string>, rest: string)
    requires Writable(keys) && rest != [] && !IsBracket(rest[0])
    ensures KeyPath(Render(keys) + rest) == Err(Unparsable(Render(keys) + rest))
  {
    var k := Render(keys) + rest;
    ParseRendered(k, keys, rest, []);
  }

  /** A `[` inside an open bracket is an error. */
  lemma NestedOpen(keys: seq<string>, w: string, rest: string)
    requires Writable(keys) && BracketFree(w)
    ensures KeyPath(Render(keys) + "[" + w + "[" + rest) == Err(Unparsable(Render(keys) + "[" + w + "[" + rest))
  {
    var k := Render(keys) + "[" + w + "[" + rest;
    var inner := w + "[" + rest;
    assert k == Render(keys) + ("[" + inner);
    ParseRendered(k, keys, "[" + inner, []);
    assert [] + keys == keys;
    OpenFirst(inner);
    var ts := Tokens(inner);
    assert Parse(k, [Open] + ts, false, keys) == Parse(k, ts, true, keys) by {
      assert ([Open] + ts)[0] == Open && ([Open] + ts)[1..] == ts;
    }
    OpenedTwice(k, w, rest, keys);
  }

  /** Inside an open bracket, an optional word and then `[` is an error. */
  lemma OpenedTwice(k: string, w: string, rest: string, acc: seq<string>)
    requires BracketFree(w)
    ensures Parse(k, Tokens(w + "[" + rest), true, acc) == Err(Unparsable(k))
  {
    var ts := Tokens(w + "[" + rest);
    OpenFirst(rest);
    if w == [] {
      assert w + "[" + rest == "[" + rest;
      assert ts[0] == Open;
    } else {
      assert w + "[" + rest == w + ("[" + rest);
      WordThenBracket(w, "[" + rest);
      assert ts[0] == Word(w) && ts[1..] == Tokens("[" + rest);
      assert Parse(k, ts, true, acc) == Parse(k, Tokens("[" + rest), true, acc + [w]);
    }
  }

  /** Input that ends inside an open bracket is an error. */
  lemma Unclosed(keys: seq<string>, w: string)
    requires Writable(keys) && BracketFree(w)
    ensures KeyPath(Render(keys) + "[" + w) == Err(Unparsable(Render(keys) + "[" + w))
  {
    var k := Render(keys) + "[" + w;
    assert k == Render(keys) + ("[" + w);
    ParseRendered(k, keys, "[" + w, []);
    assert [] + keys == keys;
    OpenFirst(w);
    var ts := Tokens(w);
    assert Parse(k, [Open] + ts, false, keys) == Parse(k, ts, true, keys) by {
      assert ([Open] + ts)[0] == Open && ([Open] + ts)[1..] == ts;
    }
    if w == [] {
      assert ts == [];
    } else {
      WordAlone(w);
      assert ts[0] == Word(w) && ts[1..] == [];
      assert Parse(k, ts, true, keys) == Parse(k, [], true, keys + [w]);
    }
  }

  // ---------------------------------------------------------------------
  // Storing a value under a path of keys

  /** The nested map held under `k`; a string or nothing there counts as no map. */
  function Nested(m: seq<(string, Tree)>, k: string): seq<(string, Tree)> {
    var held := Get(m, k);
    if held.Some? && held.value.Node? then held.value.entries else []
  }

  /**
   * The walk in `deepObject`: every key but the last descends into the map
   * held there, or puts a fresh map in place of whatever else is there; the
   * last key receives the value. An empty path changes nothing.
   */
  function Insert(m: seq<(string, Tree)>, keys: seq<string>, v: string): seq<(string, Tree)>
    decreases |keys|
  {
    if |keys| == 0 then m
    else if |keys| == 1 then Put(m, keys[0], Leaf(v))
    else Put(m, keys[0], Node(Insert(Nested(m, keys[0]), keys[1..], v)))
  }

  /** What a path of keys leads to through nested maps. */
  function At(m: seq<(string, Tree)>, keys: seq<string>): Option<Tree>
    requires |keys| >= 1
    decreases |keys|
  {
    match Get(m, keys[0])
    case None => None
    case Some(t) =>
      if |keys| == 1 then Some(t)
      else match t
        case Leaf(_) => None
        case Node(es) => At(es, keys[1..])
  }

  /** After storing `v` under a path, the path leads to `v`. */
  lemma {:induction false} InsertThenAt(m: seq<(string, Tree)>, keys: seq<string>, v: string)
    requires |keys| >= 1
    ensures At(Insert(m, keys, v), keys) == Some(Leaf(v))
    decreases |keys|
  {
    if |keys| == 1 {
      GetPut(m, keys[0], Leaf(v));
    } else {
      var sub := Insert(Nested(m, keys[0]), keys[1..], v);
      GetPut(m, keys[0], Node(sub));
      InsertThenAt(Nested(m, keys[0]), keys[1..], v);
    }
  }

  /** Storing under a path leaves every other top-level key as it was. */
  lemma InsertKeepsOthers(m: seq<(string, Tree)>, keys: seq<string>, v: string, k: string)
    requires |keys| >= 1 && k != keys[0]
    ensures Get(Insert(m, keys, v), k) == Get(m, k)
  {
    if |keys| == 1 {
      GetPutOther(m, keys[0], Leaf(v), k);
    } else {
      GetPutOther(m, keys[0], Node(Insert(Nested(m, keys[0]), keys[1..], v)), k);
    }
  }

  /**
   * An intermediate key that already holds a map is reused: the other
   * entries of that map are still there.
   */
  lemma InsertReusesMap(m: seq<(string, Tree)>, keys: seq<string>, v: string, es: seq<(string, Tree)>, k: string)
    requires |keys| >= 2 && Get(m, keys[0]) == Some(Node(es)) && k != keys[1]
    ensures Get(Nested(Insert(m, keys, v), keys[0]), k) == Get(es, k)
  {
    var sub := Insert(es, keys[1..], v);
    GetPut(m, keys[0], Node(sub));
    InsertKeepsOthers(es, keys[1..], v, k);
  }

  /**
   * An intermediate key that holds a string, or nothing, gets a fresh map
   * whose only key is the next key of the path.
   */
  lemma InsertReplaces(m: seq<(string, Tree)>, keys: seq<string>, v: string)
    requires |keys| >= 2 && !(Get(m, keys[0]).Some? && Get(m, keys[0]).value.Node?)
    ensures Keys(Nested(Insert(m, keys, v), keys[0])) == [keys[1]]
  {
    var sub := Insert([], keys[1..], v);
    assert Nested(m, keys[0]) == [];
    GetPut(m, keys[0], Node(sub));
    PutShape([], keys[1], if |keys| == 2 then Leaf(v) else Node(Insert(Nested([], keys[1]), keys[2..], v)));
  }

  /** Storing under a path keeps the keys of the outer map distinct. */
  lemma InsertDistinct(m: seq<(string, Tree)>, keys: seq<string>, v: string)
    requires Distinct(m)
    ensures Distinct(Insert(m, keys, v))
  {
    if |keys| == 1 {
      PutDistinct(m, keys[0], Leaf(v));
    } else if |keys| > 1 {
      PutDistinct(m, keys[0], Node(Insert(Nested(m, keys[0]), keys[1..], v)));
    }
  }
}
