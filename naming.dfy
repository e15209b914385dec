/**
 * `camel2snake` (competition/utils.py): the rule that derives a registry name
 * from a class name. The regular expression `(?<!^)(?=[A-Z])` matches the empty
 * position before every upper-case ASCII letter except at the start; each match
 * becomes `_`, and the result is lower-cased.
 */
module Naming {

  predicate IsUpper(ch: char) {
    'A' <= ch <= 'Z'
  }

  /** `str.lower` on one character (ASCII letters only). */
  function LowerChar(ch: char): (r: char)
    ensures !IsUpper(r)
    ensures IsUpper(ch) ==> r as int == ch as int + 32
    ensures !IsUpper(ch) ==> r == ch
  {
    if IsUpper(ch) then (ch as int + 32) as char else ch
  }

  /** `str.lower` (ASCII letters only). */
  function Lower(s: string): (r: string)
    ensures |r| == |s| && forall i :: 0 <= i < |s| ==> r[i] == LowerChar(s[i])
  {
    seq(|s|, i requires 0 <= i < |s| => LowerChar(s[i]))
  }

  /** The rule after position 0: every upper-case letter gets an underscore in front. */
  function SnakeTail(s: string): (r: string)
    ensures forall i :: 0 <= i < |r| ==> !IsUpper(r[i])
  {
    if s == [] then []
    else (if IsUpper(s[0]) then "_" else "") + [LowerChar(s[0])] + SnakeTail(s[1..])
  }

  /** `camel2snake(name)`. */
  function Camel2Snake(name: string): (r: string)
    ensures forall i :: 0 <= i < |r| ==> !IsUpper(r[i])
    ensures |name| > 0 ==> |r| > 0 && r[0] == LowerChar(name[0])
  {
    if name == [] then [] else [LowerChar(name[0])] + SnakeTail(name[1..])
  }

  function CountUpper(s: string): nat {
    if s == [] then 0 else (if IsUpper(s[0]) then 1 else 0) + CountUpper(s[1..])
  }

  function DropUnderscores(s: string): string {
    if s == [] then [] else (if s[0] == '_' then [] else [s[0]]) + DropUnderscores(s[1..])
  }

  lemma {:induction false} DropUnderscoresAppend(a: string, b: string)
    ensures DropUnderscores(a + b) == DropUnderscores(a) + DropUnderscores(b)
  {
    if a == [] {
      assert a + b == b;
    } else {
      assert (a + b)[1..] == a[1..] + b;
      DropUnderscoresAppend(a[1..], b);
    }
  }

  lemma {:induction false} SnakeTailAppend(a: string, b: string)
    ensures SnakeTail(a + b) == SnakeTail(a) + SnakeTail(b)
  {
    if a == [] {
      assert a + b == b;
    } else {
      assert (a + b)[1..] == a[1..] + b;
      SnakeTailAppend(a[1..], b);
    }
  }

  /** A capitalised word: its letter gets an underscore, the lower-case rest is kept. */
  lemma SnakeTailWord(w: string)
    requires |w| > 0 && IsUpper(w[0])
    requires forall i :: 1 <= i < |w| ==> !IsUpper(w[i])
    ensures SnakeTail(w) == "_" + [LowerChar(w[0])] + w[1..]
  {
    SnakeTailOfLower(w[1..]);
  }

  lemma {:induction false} SnakeTailFacts(s: string)
    ensures |SnakeTail(s)| == |s| + CountUpper(s)
    ensures DropUnderscores(SnakeTail(s)) == DropUnderscores(Lower(s))
  {
    if s != [] {
      SnakeTailFacts(s[1..]);
      var head := (if IsUpper(s[0]) then "_" else "") + [LowerChar(s[0])];
      DropUnderscoresAppend(head, SnakeTail(s[1..]));
      assert Lower(s) == [LowerChar(s[0])] + Lower(s[1..]);
      DropUnderscoresAppend([LowerChar(s[0])], Lower(s[1..]));
      if IsUpper(s[0]) {
        assert head == "_" + [LowerChar(s[0])];
        DropUnderscoresAppend("_", [LowerChar(s[0])]);
      }
    }
  }

  /**
   * Deleting every underscore from the snake name leaves the lower-cased name with
   * its own underscores deleted, and one underscore is added per upper-case letter
   * after the first character.
   */
  lemma Camel2SnakeInsertsOnly(name: string)
    ensures DropUnderscores(Camel2Snake(name)) == DropUnderscores(Lower(name))
    ensures |name| > 0 ==> |Camel2Snake(name)| == |name| + CountUpper(name[1..])
  {
    if name != [] {
      SnakeTailFacts(name[1..]);
      DropUnderscoresAppend([LowerChar(name[0])], SnakeTail(name[1..]));
      assert Lower(name) == [LowerChar(name[0])] + Lower(name[1..]);
      DropUnderscoresAppend([LowerChar(name[0])], Lower(name[1..]));
    }
  }

  lemma {:induction false} SnakeTailOfLower(s: string)
    requires forall i :: 0 <= i < |s| ==> !IsUpper(s[i])
    ensures SnakeTail(s) == s
  {
    if s != [] {
      SnakeTailOfLower(s[1..]);
    }
  }

  /** A name without upper-case letters is its own snake name, so the rule is idempotent. */
  lemma Camel2SnakeIdempotent(name: string)
    ensures Camel2Snake(Camel2Snake(name)) == Camel2Snake(name)
  {
    var r := Camel2Snake(name);
    if r != [] {
      SnakeTailOfLower(r[1..]);
      assert r == [r[0]] + r[1..];
    }
  }

  /** Appending to a non-empty name appends the tail rule's image of the suffix. */
  lemma Camel2SnakeAppend(w: string, suffix: string)
    requires |w| > 0
    ensures Camel2Snake(w + suffix) == Camel2Snake(w) + SnakeTail(suffix)
  {
    assert (w + suffix)[1..] == w[1..] + suffix;
    SnakeTailAppend(w[1..], suffix);
  }

  /**
   * The suffix `Calcer` is not stripped: `DateFeaturesCalcer` would register as
   * `date_features_calcer`, so calcers rely on their explicit `name` attribute.
   */
  lemma CalcerSuffixKept(w: string)
    requires |w| > 0
    ensures Camel2Snake(w + "Calcer") == Camel2Snake(w) + "_calcer"
  {
    Camel2SnakeAppend(w, "Calcer");
    SnakeTailWord("Calcer");
  }
}
