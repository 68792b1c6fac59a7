/**
 * The include filter of Main.main: the terms parsed from the optional second
 * argument and the substring test that decides whether a key is counted.
 */
module Includes {
  import opened Wrappers
  import opened Text

  /**
   * The tokens a StringTokenizer with delimiter "," yields: the comma-free
   * pieces of `s`, in order, empty ones dropped.
   */
  function Tokens(s: string): seq<string>
  {
    Scan(s, "")
  }

  /**
   * The tokens still to come once `current` has been read of the token in
   * progress and `rest` is what is left of the argument.
   */
  function Scan(rest: string, current: string): seq<string>
  {
    if rest == [] then Flush(current)
    else if rest[0] == ',' then Flush(current) + Scan(rest[1..], "")
    else Scan(rest[1..], current + [rest[0]])
  }

  /** A finished piece, which is a token only when non-empty. */
  function Flush(current: string): seq<string>
  {
    if current == [] then [] else [current]
  }

  /** A filter term: a token with its dots written as slashes, as in a key. */
  function Normalize(token: string): (r: string)
    ensures |r| == |token| && '.' !in r
  {
    Replace(token, '.', '/')
  }

  /** The include set built from the second argument, if there is one. */
  function IncludeTerms(arg: Option<string>): set<string>
  {
    match arg
    case None => {}
    case Some(s) => Terms(Tokens(s))
  }

  /** The normalised forms of some tokens. */
  function Terms(tokens: seq<string>): set<string>
  {
    set t | t in tokens :: Normalize(t)
  }

  lemma TermsAppend(tokens: seq<string>, token: string)
    ensures Terms(tokens + [token]) == Terms(tokens) + {Normalize(token)}
  {
    assert forall t :: t in tokens + [token] <==> t in tokens || t == token;
  }

  /** The filter: no terms accepts every key, otherwise some term must occur in it. */
  predicate Accepts(includes: set<string>, key: string)
  {
    includes == {} || exists term :: term in includes && Contains(key, term)
  }

  /** A comma splits the tokens of what precedes it from those of what follows it. */
  lemma TokensSplit(a: string, b: string)
    ensures Tokens(a + [','] + b) == Tokens(a) + Tokens(b)
  {
    ScanSplit(a, "", b);
  }

  lemma {:induction false} ScanSplit(a: string, current: string, b: string)
    ensures Scan(a + [','] + b, current) == Scan(a, current) + Scan(b, "")
    decreases |a|
  {
    var s := a + [','] + b;
    if a == [] {
      assert s[0] == ',' && s[1..] == b;
    } else {
      assert s[0] == a[0] && s[1..] == a[1..] + [','] + b;
      if a[0] == ',' {
        ScanSplit(a[1..], "", b);
      } else {
        ScanSplit(a[1..], current + [a[0]], b);
      }
    }
  }

  /** Every token is non-empty and holds no comma. */
  lemma TokensShape(s: string)
    ensures forall t :: t in Tokens(s) ==> t != [] && ',' !in t
  {
    ScanShape(s, "");
  }

  lemma {:induction false} ScanShape(rest: string, current: string)
    requires ',' !in current
    ensures forall t :: t in Scan(rest, current) ==> t != [] && ',' !in t
    decreases |rest|
  {
    if rest != [] {
      if rest[0] == ',' {
        ScanShape(rest[1..], "");
      } else {
        ScanShape(rest[1..], current + [rest[0]]);
      }
    }
  }

  /** A non-empty comma-free argument is a single token. */
  lemma SingleToken(s: string)
    requires s != [] && ',' !in s
    ensures Tokens(s) == [s]
  {
    ScanCommaFree(s, "");
    assert "" + s == s;
  }

  lemma {:induction false} ScanCommaFree(rest: string, current: string)
    requires ',' !in rest
    ensures Scan(rest, current) == Flush(current + rest)
    decreases |rest|
  {
    if rest != [] {
      assert rest[0] != ',' && ',' !in rest[1..];
      ScanCommaFree(rest[1..], current + [rest[0]]);
      assert current + [rest[0]] + rest[1..] == current + rest;
    } else {
      assert current + rest == current;
    }
  }

  /** Every include term is non-empty and holds neither a comma nor a dot. */
  lemma IncludeTermsShape(arg: Option<string>)
    ensures forall t :: t in IncludeTerms(arg) ==> t != [] && ',' !in t && '.' !in t
  {
    forall t | t in IncludeTerms(arg)
      ensures t != [] && ',' !in t && '.' !in t
    {
      TokensShape(arg.value);
      var u :| u in Tokens(arg.value) && Normalize(u) == t;
      assert |t| == |u| && u != [];
    }
  }

  /** "a.b,,c.d" gives the two terms "a/b" and "c/d". */
  lemma IncludeTermsExample()
    ensures IncludeTerms(Some("a.b,,c.d")) == {"a/b", "c/d"}
  {
    assert "a.b" + [','] + ",c.d" == "a.b,,c.d";
    assert "" + [','] + "c.d" == ",c.d";
    TokensSplit("a.b", ",c.d");
    TokensSplit("", "c.d");
    SingleToken("a.b");
    SingleToken("c.d");
    assert Tokens("") == [];
    assert Tokens("a.b,,c.d") == ["a.b", "c.d"];
    assert Normalize("a.b") == "a/b" && Normalize("c.d") == "c/d";
  }

  /** With no terms every key is accepted. */
  lemma EmptyIncludesAcceptAll(key: string)
    ensures Accepts({}, key)
  {
  }

  /** A term accepts exactly the keys it occurs in. */
  lemma FilterExamples()
    ensures Accepts({"com/foo"}, "java;com/foo/Bar:.m;int")
    ensures !Accepts({"com/foo"}, "java;org/baz/Qux:.m;int")
  {
    assert OccursAt("java;com/foo/Bar:.m;int", "com/foo", 5);
    var key := "java;org/baz/Qux:.m;int";
    forall i | 0 <= i <= |key| - 7
      ensures !OccursAt(key, "com/foo", i)
    {
      assert key[i] != 'c';
    }
  }

  /** One character of the argument read by the tokenizer: a comma ends the piece in progress. */
  lemma ScanAt(s: string, start: nat, i: nat)
    requires start <= i < |s|
    ensures s[i] == ',' ==> Scan(s[i..], s[start..i]) == Flush(s[start..i]) + Scan(s[i + 1..], s[i + 1..i + 1])
    ensures s[i] != ',' ==> Scan(s[i..], s[start..i]) == Scan(s[i + 1..], s[start..i + 1])
  {
    assert s[i..][0] == s[i] && s[i..][1..] == s[i + 1..];
    assert s[i + 1..i + 1] == "";
    assert s[start..i] + [s[i]] == s[start..i + 1];
  }

  /**
   * The parsing loop of Main.main, tokenizing the second argument and adding
   * each normalised token to a HashSet.
   */
  method ParseIncludes(arg: Option<string>) returns (includes: set<string>)
    ensures includes == IncludeTerms(arg)
  {
    includes := {};
    if arg == None {
      return;
    }
    var s := arg.value;
    ghost var done: seq<string> := [];
    var start, i := 0, 0;
    assert s[0..] == s && s[0..0] == "";
    while i < |s|
      invariant 0 <= start <= i <= |s|
      invariant Tokens(s) == done + Scan(s[i..], s[start..i])
      invariant includes == Terms(done)
    {
      ScanAt(s, start, i);
      if s[i] == ',' {
        var piece := s[start..i];
        ghost var later := Scan(s[i + 1..], "");
        if start < i {
          TermsAppend(done, piece);
          includes := includes + {Normalize(piece)};
          ConcatAssociative(done, [piece], later);
          done := done + [piece];
        }
        start := i + 1;
      }
      i := i + 1;
    }
    assert s[i..] == [] && s[start..i] == s[start..];
    if start < |s| {
      TermsAppend(done, s[start..]);
      includes := includes + {Normalize(s[start..])};
      done := done + [s[start..]];
    } else {
      assert done + [] == done;
    }
    assert Tokens(s) == done;
  }
}
