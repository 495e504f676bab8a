/** The naming convention that maps a model's class name and a short logical
    name onto the class name of a resource or form: PHP's explode and join on
    '_', the model's namespace, ucfirst and the camel-case inflection. */
module Naming {

  const Separator: char := '_'

  predicate IsLower(c: char) { 'a' <= c <= 'z' }
  predicate IsUpper(c: char) { 'A' <= c <= 'Z' }
  predicate IsDigit(c: char) { '0' <= c <= '9' }

  // ---------------------------------------------------------------------
  // explode('_', s) and join('_', parts)
  // ---------------------------------------------------------------------

  /** PHP's explode('_', s): the maximal '_'-free pieces of s, in order.
      There is always at least one piece (the empty string gives [""]). */
  function Explode(s: string): (parts: seq<string>)
    ensures |parts| >= 1
    ensures forall i :: 0 <= i < |parts| ==> Separator !in parts[i]
    ensures |parts[0]| <= |s|
  {
    if |s| == 0 then [""]
    else if s[0] == Separator then [""] + Explode(s[1..])
    else
      var rest := Explode(s[1..]);
      [[s[0]] + rest[0]] + rest[1..]
  }

  /** PHP's join('_', parts). */
  function Join(parts: seq<string>): (s: string)
    ensures |parts| > 0 ==> parts[0] <= s
  {
    if |parts| == 0 then ""
    else if |parts| == 1 then parts[0]
    else parts[0] + [Separator] + Join(parts[1..])
  }

  /** Joining the pieces of an explode gives back the original string. */
  lemma {:induction false} JoinExplode(s: string)
    ensures Join(Explode(s)) == s
  {
    if |s| == 0 {
    } else if s[0] == Separator {
      JoinExplode(s[1..]);
      var rest := Explode(s[1..]);
      assert Explode(s) == [""] + rest;
      if |rest| == 1 {
        assert Join(Explode(s)) == "" + [Separator] + rest[0];
      } else {
        assert (([""] + rest)[1..]) == rest;
      }
      assert s == [s[0]] + s[1..];
    } else {
      JoinExplode(s[1..]);
      var rest := Explode(s[1..]);
      var parts := [[s[0]] + rest[0]] + rest[1..];
      assert Explode(s) == parts;
      if |rest| == 1 {
        assert Join(parts) == [s[0]] + rest[0];
        assert Join(rest) == rest[0];
      } else {
        assert parts[1..] == rest[1..];
        assert Join(rest) == rest[0] + [Separator] + Join(rest[1..]);
        assert Join(parts) == [s[0]] + rest[0] + [Separator] + Join(rest[1..]);
      }
      assert s == [s[0]] + s[1..];
    }
  }

  /** Explode of a piece, a '_' and anything: the piece comes out first,
      followed by the pieces of the rest. */
  lemma {:induction false} ExplodeCons(a: string, b: string)
    requires Separator !in a
    ensures Explode(a + [Separator] + b) == [a] + Explode(b)
  {
    if |a| == 0 {
      assert a + [Separator] + b == [Separator] + b;
      assert ([Separator] + b)[1..] == b;
    } else {
      ExplodeCons(a[1..], b);
      var s := a + [Separator] + b;
      assert s[0] == a[0] && s[1..] == a[1..] + [Separator] + b;
      assert [a[0]] + a[1..] == a;
    }
  }

  /** Explode of a '_'-free string is that string alone. */
  lemma {:induction false} ExplodeWhole(a: string)
    requires Separator !in a
    ensures Explode(a) == [a]
  {
    if |a| > 0 {
      ExplodeWhole(a[1..]);
      assert [a[0]] + a[1..] == a;
    }
  }

  /** The other direction of the round trip: exploding the join of
      '_'-free pieces gives back the pieces. */
  lemma {:induction false} ExplodeJoin(parts: seq<string>)
    requires |parts| >= 1
    requires forall i :: 0 <= i < |parts| ==> Separator !in parts[i]
    ensures Explode(Join(parts)) == parts
  {
    if |parts| == 1 {
      ExplodeWhole(parts[0]);
    } else {
      ExplodeJoin(parts[1..]);
      ExplodeCons(parts[0], Join(parts[1..]));
      assert [parts[0]] + parts[1..] == parts;
    }
  }

  // ---------------------------------------------------------------------
  // _getNamespace
  // ---------------------------------------------------------------------

  /** The first '_'-separated segment of a class name: the module that the
      class belongs to (SF_Model_Abstract::_getNamespace). */
  function Namespace(className: string): (ns: string)
    ensures Separator !in ns && |ns| <= |className|
  {
    Explode(className)[0]
  }

  /** The namespace is the longest '_'-free prefix of the class name: it is
      a prefix, contains no '_', and is either the whole name or is followed
      by a '_'. */
  lemma {:induction false} NamespaceIsFirstSegment(className: string)
    ensures var ns := Namespace(className);
      && Separator !in ns
      && ns <= className
      && (ns == className || className[|ns|] == Separator)
  {
    if |className| > 0 && className[0] != Separator {
      NamespaceIsFirstSegment(className[1..]);
      assert [className[0]] + className[1..] == className;
    }
  }

  // ---------------------------------------------------------------------
  // _getInflected
  // ---------------------------------------------------------------------

  /** PHP's ucfirst: an ASCII lower-case first character becomes upper-case;
      everything else is left as it is. */
  function UcFirst(s: string): (r: string)
    ensures |r| == |s|
    ensures |s| > 0 ==> r[1..] == s[1..]
    ensures |s| > 0 && !IsLower(s[0]) ==> r == s
    ensures |s| > 0 && IsLower(s[0]) ==> IsUpper(r[0])
    ensures |s| > 0 && IsLower(s[0]) ==> r[0] as int - 'A' as int == s[0] as int - 'a' as int
  {
    if |s| > 0 && IsLower(s[0]) then [(s[0] as int - 32) as char] + s[1..] else s
  }

  /** A camel-case hump: a lower-case letter or digit followed by an
      upper-case letter. */
  predicate Hump(a: char, b: char) {
    (IsLower(a) || IsDigit(a)) && IsUpper(b)
  }

  /** What the filter puts between two neighbouring characters. */
  function Gap(a: char, b: char): string {
    if Hump(a, b) then [Separator] else []
  }

  /** The Word_CamelCaseToUnderscore filter: a '_' goes into every hump. */
  function CamelToUnderscore(s: string): (r: string)
    ensures |r| >= |s|
    ensures |s| > 0 ==> r[0] == s[0]
  {
    if |s| < 2 then s
    else [s[0]] + Gap(s[0], s[1]) + CamelToUnderscore(s[1..])
  }

  /** The inflected name used as the last segment of a derived class name. */
  function Inflect(name: string): (r: string)
    ensures |r| >= |name|
    ensures |name| > 0 ==> r[0] == UcFirst(name)[0] && !IsLower(r[0])
  {
    UcFirst(CamelToUnderscore(name))
  }

  /** s with every '_' removed. */
  function StripSeparators(s: string): (r: string)
    ensures Separator !in r
  {
    if |s| == 0 then ""
    else (if s[0] == Separator then "" else [s[0]]) + StripSeparators(s[1..])
  }

  lemma {:induction false} StripConcat(a: string, b: string)
    ensures StripSeparators(a + b) == StripSeparators(a) + StripSeparators(b)
  {
    if |a| > 0 {
      StripConcat(a[1..], b);
      assert (a + b)[1..] == a[1..] + b;
    } else {
      assert a + b == b;
    }
  }

  lemma {:induction false} StripFree(s: string)
    requires Separator !in s
    ensures StripSeparators(s) == s
  {
    if |s| > 0 {
      StripFree(s[1..]);
      assert [s[0]] + s[1..] == s;
    }
  }

  /** The filter only inserts '_': removing every '_' from its output gives
      the input with its own '_' removed. */
  lemma {:induction false} CamelToUnderscoreOnlyInserts(s: string)
    ensures StripSeparators(CamelToUnderscore(s)) == StripSeparators(s)
  {
    if |s| >= 2 {
      CamelToUnderscoreOnlyInserts(s[1..]);
      var u := Gap(s[0], s[1]);
      StripConcat([s[0]] + u, CamelToUnderscore(s[1..]));
      StripConcat([s[0]], u);
      StripConcat([s[0]], s[1..]);
      assert StripSeparators(u) == "";
      assert [s[0]] + s[1..] == s;
    }
  }

  /** No two neighbouring characters of r form a hump. */
  ghost predicate NoHumps(r: string) {
    forall i :: 0 <= i < |r| - 1 ==> !Hump(r[i], r[i + 1])
  }

  /** The filter leaves no camel-case hump unsplit. */
  lemma {:induction false} CamelToUnderscoreSplitsHumps(s: string)
    ensures NoHumps(CamelToUnderscore(s))
  {
    if |s| >= 2 {
      CamelToUnderscoreSplitsHumps(s[1..]);
      var t := CamelToUnderscore(s[1..]);
      assert t[0] == s[1];
      var r := CamelToUnderscore(s);
      if Hump(s[0], s[1]) {
        assert r == [s[0], Separator] + t;
        forall i | 0 <= i < |r| - 1 ensures !Hump(r[i], r[i + 1]) {
          if i >= 2 { assert r[i] == t[i - 2] && r[i + 1] == t[i - 1]; }
        }
      } else {
        assert r == [s[0]] + t;
        forall i | 0 <= i < |r| - 1 ensures !Hump(r[i], r[i + 1]) {
          if i >= 1 { assert r[i] == t[i - 1] && r[i + 1] == t[i]; }
        }
      }
    }
  }

  /** For a logical name without '_': the inflected name spells the same
      characters as the name with its first letter capitalised, and every
      camel-case hump of the name is split by a '_'. */
  lemma InflectSpec(name: string)
    requires Separator !in name
    ensures StripSeparators(Inflect(name)) == UcFirst(name)
    ensures NoHumps(Inflect(name))
  {
    var c := CamelToUnderscore(name);
    CamelToUnderscoreOnlyInserts(name);
    StripFree(name);
    CamelToUnderscoreSplitsHumps(name);
    if |name| > 0 {
      assert c[0] == name[0] && c[0] != Separator;
      StripConcat([c[0]], c[1..]);
      StripConcat([UcFirst(c)[0]], c[1..]);
      assert [c[0]] + c[1..] == c;
      assert UcFirst(c) == [UcFirst(c)[0]] + c[1..];
      assert UcFirst(name) == [UcFirst(name)[0]] + name[1..];
      assert StripSeparators(c[1..]) == StripSeparators(c)[1..];
      assert StripSeparators(c) == name;
      assert [name[0]] + name[1..] == name;
      var u := UcFirst(c);
      forall i | 0 <= i < |u| - 1 ensures !Hump(u[i], u[i + 1]) {
        if i == 0 {
          assert !Hump(c[0], c[1]);
        } else {
          assert u[i] == c[i] && u[i + 1] == c[i + 1];
        }
      }
    }
  }

  /** The filter on a concatenation: the two halves are filtered
      separately, with a '_' between them when they meet at a hump. */
  lemma {:induction false} CamelToUnderscoreConcat(a: string, b: string)
    requires |a| > 0 && |b| > 0
    ensures CamelToUnderscore(a + b) == CamelToUnderscore(a) + Gap(a[|a| - 1], b[0]) + CamelToUnderscore(b)
  {
    var ab := a + b;
    if |a| == 1 {
      assert ab[1..] == b;
    } else {
      var a', g, t := a[1..], Gap(a[|a| - 1], b[0]), CamelToUnderscore(b);
      var h := [a[0]] + Gap(a[0], a[1]);
      assert CamelToUnderscore(ab) == h + CamelToUnderscore(a' + b) by {
        assert ab[1..] == a' + b;
        assert ab[0] == a[0] && ab[1] == a[1];
      }
      assert CamelToUnderscore(a' + b) == CamelToUnderscore(a') + g + t by {
        CamelToUnderscoreConcat(a', b);
        assert a'[|a'| - 1] == a[|a| - 1];
      }
      assert CamelToUnderscore(a) == h + CamelToUnderscore(a');
      SeqAssoc(h, CamelToUnderscore(a'), g, t);
    }
  }

  lemma SeqAssoc(w: string, x: string, y: string, z: string)
    ensures w + (x + y + z) == (w + x) + y + z
  {
  }

  /** One word of a camel-case name: any first character, then lower-case
      letters and digits only, ending in one of those. */
  predicate Word(w: string) {
    && |w| >= 1
    && (forall i :: 1 <= i < |w| ==> IsLower(w[i]) || IsDigit(w[i]))
    && (IsLower(w[|w| - 1]) || IsDigit(w[|w| - 1]))
  }

  /** A camel-case name split into its words: every word after the first
      starts with an upper-case letter. */
  predicate CamelWords(words: seq<string>) {
    && |words| >= 1
    && (forall i :: 0 <= i < |words| ==> Word(words[i]))
    && (forall i :: 1 <= i < |words| ==> IsUpper(words[i][0]))
  }

  /** The words written one after the other. */
  function Concat(words: seq<string>): (s: string)
    ensures |words| > 0 && |words[0]| > 0 ==> |s| > 0 && s[0] == words[0][0]
  {
    if |words| == 0 then "" else words[0] + Concat(words[1..])
  }

  lemma {:induction false} CamelToUnderscoreWord(w: string)
    requires Word(w)
    ensures CamelToUnderscore(w) == w
  {
    if |w| >= 2 {
      CamelToUnderscoreWord(w[1..]);
      assert [w[0]] + w[1..] == w;
    }
  }

  /** The filter puts exactly one '_' between the words of a camel-case
      name and changes nothing else. */
  lemma {:induction false} CamelToUnderscoreWords(words: seq<string>)
    requires CamelWords(words)
    ensures CamelToUnderscore(Concat(words)) == Join(words)
  {
    CamelToUnderscoreWord(words[0]);
    if |words| == 1 {
      assert words[1..] == [];
      assert Concat(words) == words[0] + "";
      assert Concat(words) == words[0];
    } else {
      var tail := words[1..];
      assert CamelWords(tail) by {
        forall i | 0 <= i < |tail| ensures Word(tail[i]) && (i >= 1 ==> IsUpper(tail[i][0])) {
          assert tail[i] == words[i + 1];
        }
      }
      CamelToUnderscoreWords(tail);
      var w := words[0];
      assert Hump(w[|w| - 1], Concat(tail)[0]);
      CamelToUnderscoreConcat(w, Concat(tail));
    }
  }

  lemma UcFirstConcat(a: string, b: string)
    requires |a| > 0
    ensures UcFirst(a + b) == UcFirst(a) + b
  {
    assert (a + b)[1..] == a[1..] + b;
  }

  lemma JoinCons(a: string, rest: seq<string>)
    requires |rest| >= 1
    ensures Join([a] + rest) == a + [Separator] + Join(rest)
  {
    assert ([a] + rest)[1..] == rest;
  }

  /** The inflector's contract, camelCaseWord to Camel_Case_Word: the words
      of a camel-case name, the first one capitalised, joined by '_'. */
  lemma InflectCamelWords(words: seq<string>)
    requires CamelWords(words)
    ensures Inflect(Concat(words)) == Join([UcFirst(words[0])] + words[1..])
  {
    var w, tail := words[0], words[1..];
    var j := Join(words);
    assert Inflect(Concat(words)) == UcFirst(j) by {
      CamelToUnderscoreWords(words);
    }
    assert UcFirst(j) == Join([UcFirst(w)] + tail) by {
      InflectJoin(w, tail);
      assert words == [w] + tail;
    }
  }

  lemma InflectJoin(w: string, tail: seq<string>)
    requires |w| > 0
    ensures UcFirst(Join([w] + tail)) == Join([UcFirst(w)] + tail)
  {
    if |tail| == 0 {
      assert Join([UcFirst(w)]) == UcFirst(w);
    } else {
      JoinCons(w, tail);
      JoinCons(UcFirst(w), tail);
      UcFirstConcat(w, [Separator] + Join(tail));
      assert w + [Separator] + Join(tail) == w + ([Separator] + Join(tail));
      assert UcFirst(w) + [Separator] + Join(tail) == UcFirst(w) + ([Separator] + Join(tail));
    }
  }

  lemma WordUcFirst(w: string)
    requires Word(w) && |w| >= 2
    ensures Word(UcFirst(w))
  {
    var u := UcFirst(w);
    assert u[1..] == w[1..];
    forall i | 1 <= i < |u| ensures IsLower(u[i]) || IsDigit(u[i]) {
      assert u[i] == u[1..][i - 1];
    }
    assert u[|u| - 1] == w[|w| - 1];
  }

  /** Inflection is not one-to-one: a camel-case name and the same name
      with its first letter capitalised (userProfile and UserProfile) give
      the same class-name segment, provided the first word has two letters
      or more (in this model aProfile gives A_Profile but AProfile gives
      AProfile). */
  lemma InflectIgnoresFirstCase(words: seq<string>)
    requires CamelWords(words) && |words[0]| >= 2
    ensures Inflect(Concat([UcFirst(words[0])] + words[1..])) == Inflect(Concat(words))
  {
    var w, tail := words[0], words[1..];
    var words' := [UcFirst(w)] + tail;
    WordUcFirst(w);
    assert CamelWords(words') by {
      forall i | 1 <= i < |words'| ensures words'[i] == words[i] { }
    }
    assert words'[0] == UcFirst(w) && words'[1..] == tail;
    InflectCamelWords(words);
    InflectCamelWords(words');
    assert UcFirst(UcFirst(w)) == UcFirst(w);
  }

  // ---------------------------------------------------------------------
  // Derived class names
  // ---------------------------------------------------------------------

  /** The two kinds of collaborator and their class-name segment. */
  datatype Category = ResourceKind | FormKind {
    function Segment(): string {
      match this
      case ResourceKind => "Resource"
      case FormKind => "Form"
    }
  }

  /** join('_', [namespace, category, inflected name]) as in getResource and
      getForm. */
  function ClassName(modelClass: string, category: Category, name: string): (cls: string)
    ensures Namespace(modelClass) <= cls
  {
    Join([Namespace(modelClass), category.Segment(), Inflect(name)])
  }

  /** The derived class name is namespace + "_Resource_" or "_Form_" + the
      inflected name. */
  lemma ClassNameShape(modelClass: string, category: Category, name: string)
    ensures ClassName(modelClass, category, name)
         == Namespace(modelClass) + "_" + category.Segment() + "_" + Inflect(name)
  {
    var parts := [Namespace(modelClass), category.Segment(), Inflect(name)];
    assert parts[1..] == [category.Segment(), Inflect(name)];
    assert parts[1..][1..] == [Inflect(name)];
    assert Join(parts[1..][1..]) == Inflect(name);
    assert Join(parts[1..]) == category.Segment() + [Separator] + Inflect(name);
    assert Join(parts) == Namespace(modelClass) + [Separator] + Join(parts[1..]);
  }

  /** A collaborator lives in the same namespace as its model, and its
      second segment is the category. */
  lemma {:induction false} ClassNameNamespace(modelClass: string, category: Category, name: string)
    ensures Explode(ClassName(modelClass, category, name))
         == [Namespace(modelClass), category.Segment()] + Explode(Inflect(name))
    ensures Namespace(ClassName(modelClass, category, name)) == Namespace(modelClass)
  {
    var ns := Namespace(modelClass);
    var seg := category.Segment();
    ClassNameShape(modelClass, category, name);
    assert Separator !in ns;
    assert Separator !in seg;
    var rest := seg + [Separator] + Inflect(name);
    assert ClassName(modelClass, category, name) == ns + [Separator] + rest;
    ExplodeCons(ns, rest);
    ExplodeCons(seg, Inflect(name));
    assert [ns] + ([seg] + Explode(Inflect(name))) == [ns, seg] + Explode(Inflect(name));
  }

  /** The derived class name of a camel-case logical name: the model's
      namespace, the category and the words of the name, first one
      capitalised, all joined by '_'. So getResource("userProfile") on a
      model of namespace Shop derives Shop_Resource_User_Profile. */
  lemma ClassNameCamelWords(modelClass: string, category: Category, words: seq<string>)
    requires CamelWords(words)
    ensures ClassName(modelClass, category, Concat(words))
         == Join([Namespace(modelClass), category.Segment(), UcFirst(words[0])] + words[1..])
  {
    var ns, seg := Namespace(modelClass), category.Segment();
    var tailJoin := Join([UcFirst(words[0])] + words[1..]);
    InflectCamelWords(words);
    ClassNameShape(modelClass, category, Concat(words));
    JoinCons(ns, [seg, UcFirst(words[0])] + words[1..]);
    assert [ns] + ([seg, UcFirst(words[0])] + words[1..]) == [ns, seg, UcFirst(words[0])] + words[1..];
    JoinCons(seg, [UcFirst(words[0])] + words[1..]);
    assert [seg] + ([UcFirst(words[0])] + words[1..]) == [seg, UcFirst(words[0])] + words[1..];
    SeqAssoc(ns + "_", seg, "_", tailJoin);
  }
}
