/**
 * Main.translate: a JVM class name or field descriptor ("[[I", "Ljava.util.List",
 * "java.lang.String") turned into a readable type name ("int[][]", ...).
 */
module TypeNames {
  import opened Wrappers
  import opened Text

  /** The readable name of a primitive descriptor code, if `c` is one. */
  function PrimitiveName(c: char): Option<string>
  {
    match c
    case 'Z' => Some("boolean")
    case 'B' => Some("byte")
    case 'C' => Some("char")
    case 'D' => Some("double")
    case 'F' => Some("float")
    case 'I' => Some("int")
    case 'J' => Some("long")
    case 'S' => Some("short")
    case _ => None
  }

  /**
   * The element name once the array markers are gone: only the first character
   * is inspected; a reference code 'L' is dropped and anything else is kept.
   */
  function BaseName(s: string): string
    requires s != []
  {
    match PrimitiveName(s[0])
    case Some(name) => name
    case None => if s[0] == 'L' then s[1..] else s
  }

  /** Number of leading '[' array markers. */
  function ArrayDepth(s: string): (k: nat)
    ensures k <= |s|
    ensures forall i :: 0 <= i < k ==> s[i] == '['
    ensures k < |s| ==> s[k] != '['
  {
    if s != [] && s[0] == '[' then 1 + ArrayDepth(s[1..]) else 0
  }

  /** `n` copies of the array suffix "[]". */
  function ArraySuffix(n: nat): (r: string)
    ensures |r| == 2 * n
    ensures forall i :: 0 <= i < n ==> r[2 * i] == '[' && r[2 * i + 1] == ']'
  {
    if n == 0 then "" else ArraySuffix(n - 1) + "[]"
  }

  /**
   * What translate returns, peeling one array marker at a time; None where
   * charAt would run past the end (no character other than '[').
   */
  function Translation(s: string): (r: Option<string>)
    ensures r.None? <==> ArrayDepth(s) == |s|
  {
    if s == [] then None
    else if s[0] == '[' then
      match Translation(s[1..])
      case None => None
      case Some(t) => Some(t + "[]")
    else Some(BaseName(s))
  }

  /** With k leading markers the result is the base name followed by exactly k "[]". */
  lemma {:induction false} TranslationShape(s: string)
    requires ArrayDepth(s) < |s|
    ensures Translation(s) == Some(BaseName(s[ArrayDepth(s)..]) + ArraySuffix(ArrayDepth(s)))
  {
    if s[0] == '[' {
      var d := ArrayDepth(s[1..]);
      TranslationShape(s[1..]);
      assert s[1..][d..] == s[d + 1..];
      ConcatAssociative(BaseName(s[d + 1..]), ArraySuffix(d), "[]");
    } else {
      assert s[0..] == s && BaseName(s) + ArraySuffix(0) == BaseName(s);
    }
  }

  /** A primitive code after the markers yields its primitive name. */
  lemma PrimitiveTranslation(s: string)
    requires ArrayDepth(s) < |s| && PrimitiveName(s[ArrayDepth(s)]).Some?
    ensures Translation(s) == Some(PrimitiveName(s[ArrayDepth(s)]).value + ArraySuffix(ArrayDepth(s)))
  {
    TranslationShape(s);
  }

  /** Only the one code character is inspected: what follows a primitive code is ignored. */
  lemma PrimitiveIgnoresRest(depth: nat, code: char, rest: string)
    requires PrimitiveName(code).Some?
    ensures Translation(ArrayMarkers(depth) + [code] + rest)
         == Some(PrimitiveName(code).value + ArraySuffix(depth))
  {
    var s := ArrayMarkers(depth) + [code] + rest;
    MarkersDepth(depth, [code] + rest);
    assert s[depth..] == [code] + rest;
    TranslationShape(s);
  }

  /** A reference code 'L' is dropped and the rest is kept verbatim, ';' included. */
  lemma ReferenceTranslation(depth: nat, rest: string)
    ensures Translation(ArrayMarkers(depth) + "L" + rest) == Some(rest + ArraySuffix(depth))
  {
    var s := ArrayMarkers(depth) + "L" + rest;
    MarkersDepth(depth, "L" + rest);
    assert s[depth..] == "L" + rest;
    TranslationShape(s);
  }

  /** A name without markers whose first character is no descriptor code comes back unchanged. */
  lemma PlainNameUnchanged(s: string)
    requires s != [] && s[0] != '[' && s[0] != 'L' && PrimitiveName(s[0]).None?
    ensures Translation(s) == Some(s)
  {
  }

  /**
   * Translating a translated primitive name changes nothing more: "int[][]"
   * starts with a lower-case letter, which no rule rewrites.
   */
  lemma PrimitiveTranslationIdempotent(s: string)
    requires ArrayDepth(s) < |s| && PrimitiveName(s[ArrayDepth(s)]).Some?
    ensures Translation(s).Some? && Translation(Translation(s).value) == Translation(s)
  {
    var d := ArrayDepth(s);
    var name := PrimitiveName(s[d]).value;
    PrimitiveTranslation(s);
    PrimitiveNameInitial(s[d]);
    var t := name + ArraySuffix(d);
    assert t[0] == name[0];
    PlainNameUnchanged(t);
  }

  /** A primitive name starts with a character that no rule of translate rewrites. */
  lemma PrimitiveNameInitial(c: char)
    requires PrimitiveName(c).Some?
    ensures var n := PrimitiveName(c).value;
      n != [] && n[0] != '[' && n[0] != 'L' && PrimitiveName(n[0]).None?
  {
    match c
    case 'Z' => assert "boolean"[0] == 'b';
    case 'B' => assert "byte"[0] == 'b';
    case 'C' => assert "char"[0] == 'c';
    case 'D' => assert "double"[0] == 'd';
    case 'F' => assert "float"[0] == 'f';
    case 'I' => assert "int"[0] == 'i';
    case 'J' => assert "long"[0] == 'l';
    case 'S' => assert "short"[0] == 's';
  }

  /**
   * Beyond primitive results translate is not idempotent: a translated
   * reference array starts with its class name, whose first letter may be read
   * as a descriptor code again.
   */
  lemma NotIdempotentExample()
    ensures Translation("[LFoo;") == Some("Foo;[]")
    ensures Translation("Foo;[]") == Some("float")
  {
    ReferenceTranslation(1, "Foo;");
    assert ArrayMarkers(1) + "L" + "Foo;" == "[LFoo;";
    assert "Foo;" + ArraySuffix(1) == "Foo;[]";
  }

  /**
   * A class of the default package whose name starts with a descriptor code is
   * read as that code: Item becomes int, and Logger loses its first letter.
   */
  lemma DefaultPackageExamples()
    ensures Translation("Item") == Some("int")
    ensures Translation("Logger") == Some("ogger")
  {
    assert "Logger"[1..] == "ogger";
  }

  /** `n` copies of the array marker '['. */
  function ArrayMarkers(n: nat): (r: string)
    ensures |r| == n && forall i :: 0 <= i < n ==> r[i] == '['
  {
    if n == 0 then "" else "[" + ArrayMarkers(n - 1)
  }

  lemma {:induction false} MarkersDepth(n: nat, s: string)
    requires s != [] && s[0] != '['
    ensures ArrayDepth(ArrayMarkers(n) + s) == n
  {
    if n > 0 {
      MarkersDepth(n - 1, s);
      assert (ArrayMarkers(n) + s)[1..] == ArrayMarkers(n - 1) + s;
    }
  }

  /** Worked cases of primitive codes. */
  lemma PrimitiveExamples()
    ensures Translation("I") == Some("int")
    ensures Translation("Z") == Some("boolean")
    ensures Translation("[[I") == Some("int[][]")
  {
    PrimitiveIgnoresRest(2, 'I', "");
    assert ArrayMarkers(2) + ['I'] + "" == "[[I";
    assert "int" + ArraySuffix(2) == "int[][]";
  }

  /** An array of a reference type keeps the trailing ';' of its descriptor. */
  lemma ReferenceExamples()
    ensures Translation("[[LFoo;") == Some("Foo;[][]")
  {
    ReferenceTranslation(2, "Foo;");
    assert ArrayMarkers(2) + "L" + "Foo;" == "[[LFoo;";
    assert "Foo;" + ArraySuffix(2) == "Foo;[][]";
  }

  /** A plain class name is returned unchanged. */
  lemma PlainExample()
    ensures Translation("java.util.HashMap") == Some("java.util.HashMap")
  {
  }

  /** Nothing but array markers: translate throws. */
  lemma MalformedExamples()
    ensures Translation("") == None && Translation("[[") == None
  {
  }

  /**
   * translate as the source runs it: a loop counting the markers, the base name,
   * then a loop appending one "[]" per marker.
   */
  method Translate(input: string) returns (r: Option<string>)
    ensures r == Translation(input)
    ensures r.Some? ==> r.value == BaseName(input[ArrayDepth(input)..]) + ArraySuffix(ArrayDepth(input))
  {
    var depth, i := 0, 0;
    while i < |input| && input[i] == '['
      invariant i <= |input| && depth == i
      invariant forall j :: 0 <= j < i ==> input[j] == '['
    {
      depth := depth + 1;
      i := i + 1;
    }
    if i == |input| {
      // charAt(i) is out of range: translate throws
      return None;
    }
    var sb: string;
    match PrimitiveName(input[i]) {
      case Some(name) => sb := name;
      case None => sb := if input[i] == 'L' then input[i + 1..] else input[i..];
    }
    ghost var base := sb;
    for arrayCounter := 0 to depth
      invariant sb == base + ArraySuffix(arrayCounter)
    {
      sb := sb + "[]";
    }
    assert ArrayDepth(input) == i;
    TranslationShape(input);
    r := Some(sb);
  }
}
