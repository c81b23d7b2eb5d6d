/** The wildcard patterns of IAM policies: `*` stands for any string, `?` for any one character. */
module Glob {

  /** What a pattern means: the text falls into one part for every pattern character, the part of a
      `*` free, that of a `?` one character long, that of any other character that character. */
  predicate PartFits(c: char, part: string) {
    if c == '*' then true
    else if c == '?' then |part| == 1
    else part == [c]
  }

  function Concat(parts: seq<string>): string {
    if parts == [] then "" else parts[0] + Concat(parts[1..])
  }

  ghost predicate FallsInto(pattern: string, text: string, parts: seq<string>) {
    && |parts| == |pattern|
    && Concat(parts) == text
    && forall i :: 0 <= i < |pattern| ==> PartFits(pattern[i], parts[i])
  }

  ghost predicate Means(pattern: string, text: string) {
    exists parts :: FallsInto(pattern, text, parts)
  }

  /** The matcher. */
  predicate Like(pattern: string, text: string)
    decreases |pattern| + |text|
  {
    if pattern == "" then text == ""
    else if pattern[0] == '*' then Like(pattern[1..], text) || (text != "" && Like(pattern, text[1..]))
    else text != "" && (pattern[0] == '?' || pattern[0] == text[0]) && Like(pattern[1..], text[1..])
  }

  lemma {:induction false} LikeMeans(pattern: string, text: string) returns (parts: seq<string>)
    requires Like(pattern, text)
    ensures FallsInto(pattern, text, parts)
    decreases |pattern| + |text|
  {
    if pattern == "" {
      parts := [];
    } else if pattern[0] == '*' {
      if Like(pattern[1..], text) {
        var rest := LikeMeans(pattern[1..], text);
        parts := [""] + rest;
        assert parts[1..] == rest;
      } else {
        var rest := LikeMeans(pattern, text[1..]);
        parts := rest[0 := [text[0]] + rest[0]];
        assert parts[1..] == rest[1..];
        assert Concat(parts) == [text[0]] + Concat(rest);
      }
    } else {
      var rest := LikeMeans(pattern[1..], text[1..]);
      parts := [[text[0]]] + rest;
      assert parts[1..] == rest;
    }
  }

  lemma {:induction false} MeansLike(pattern: string, text: string, parts: seq<string>)
    requires FallsInto(pattern, text, parts)
    ensures Like(pattern, text)
    decreases |pattern| + |text|
  {
    if pattern != "" {
      var first, rest := parts[0], parts[1..];
      assert PartFits(pattern[0], first);
      assert text == first + Concat(rest);
      assert forall i :: 0 <= i < |rest| ==> rest[i] == parts[i + 1] && pattern[1..][i] == pattern[i + 1];
      if first == "" {
        MeansLike(pattern[1..], text, rest);
      } else if pattern[0] == '*' {
        var shorter := parts[0 := first[1..]];
        assert shorter[1..] == rest;
        assert Concat(shorter) == first[1..] + Concat(rest) == text[1..];
        MeansLike(pattern, text[1..], shorter);
      } else {
        assert text[1..] == Concat(rest);
        MeansLike(pattern[1..], text[1..], rest);
      }
    }
  }

  /** The matcher decides exactly what patterns mean. */
  lemma LikeIsExact(pattern: string, text: string)
    ensures Like(pattern, text) <==> Means(pattern, text)
  {
    if Like(pattern, text) {
      var parts := LikeMeans(pattern, text);
    }
    if parts :| FallsInto(pattern, text, parts) {
      MeansLike(pattern, text, parts);
    }
  }

  // ---- Patterns of literals and stars

  predicate Literal(s: string) {
    '*' !in s && '?' !in s
  }

  /** A literal prefix matches itself, character by character. */
  lemma {:induction false} LikePrefix(prefix: string, pattern: string, text: string)
    requires Literal(prefix)
    ensures Like(prefix + pattern, text) <==> prefix <= text && Like(pattern, text[|prefix|..])
  {
    if prefix == "" {
      assert prefix + pattern == pattern && text[0..] == text;
    } else {
      var whole := prefix + pattern;
      assert whole[0] == prefix[0] && prefix[0] in prefix;
      assert whole[1..] == prefix[1..] + pattern;
      if text != "" && text[0] == prefix[0] {
        LikePrefix(prefix[1..], pattern, text[1..]);
        assert prefix == [prefix[0]] + prefix[1..] && text == [text[0]] + text[1..];
        assert prefix[1..] <= text[1..] <==> prefix <= text;
        if prefix <= text {
          assert text[1..][|prefix| - 1..] == text[|prefix|..];
        }
      }
    }
  }

  lemma LikeLiteral(pattern: string, text: string)
    requires Literal(pattern)
    ensures Like(pattern, text) <==> text == pattern
  {
    assert pattern + "" == pattern;
    LikePrefix(pattern, "", text);
  }

  /** A star takes any part of the text. */
  lemma {:induction false} LikeStar(pattern: string, text: string)
    ensures Like("*" + pattern, text) <==> exists i :: 0 <= i <= |text| && Like(pattern, text[i..])
    decreases |text|
  {
    var whole := "*" + pattern;
    assert whole[1..] == pattern;
    assert text[0..] == text;
    if text != "" {
      LikeStar(pattern, text[1..]);
      forall i | 0 <= i <= |text[1..]| ensures text[1..][i..] == text[i + 1..] {}
      if i :| 0 <= i <= |text| && Like(pattern, text[i..]) {
        if i > 0 {
          assert text[1..][i - 1..] == text[i..];
        }
      }
    }
  }

  lemma LikeAnything(text: string)
    ensures Like("*", text)
  {
    assert "*" + "" == "*";
    LikeStar("", text);
    assert text[|text|..] == "";
  }

  predicate EndsWith(text: string, suffix: string) {
    |suffix| <= |text| && text[|text| - |suffix|..] == suffix
  }

  predicate Contains(text: string, part: string) {
    exists i :: 0 <= i <= |text| && part <= text[i..]
  }

  /** `prefix*suffix`. */
  lemma LikeAround(prefix: string, suffix: string, text: string)
    requires Literal(prefix) && Literal(suffix)
    ensures Like(prefix + ("*" + suffix), text) <==> prefix <= text && EndsWith(text[|prefix|..], suffix)
  {
    LikePrefix(prefix, "*" + suffix, text);
    if prefix <= text {
      var rest := text[|prefix|..];
      LikeStar(suffix, rest);
      forall i | 0 <= i <= |rest| ensures Like(suffix, rest[i..]) <==> rest[i..] == suffix {
        LikeLiteral(suffix, rest[i..]);
      }
    }
  }

  /** `prefix*part*`. */
  lemma LikeInside(prefix: string, part: string, text: string)
    requires Literal(prefix) && Literal(part)
    ensures Like(prefix + ("*" + (part + "*")), text) <==> prefix <= text && Contains(text[|prefix|..], part)
  {
    LikePrefix(prefix, "*" + (part + "*"), text);
    if prefix <= text {
      var rest := text[|prefix|..];
      LikeStar(part + "*", rest);
      forall i | 0 <= i <= |rest| ensures Like(part + "*", rest[i..]) <==> part <= rest[i..] {
        LikePrefix(part, "*", rest[i..]);
        if part <= rest[i..] {
          LikeAnything(rest[i..][|part|..]);
        }
      }
    }
  }

  /** `prefix*`. */
  lemma LikeFrom(prefix: string, text: string)
    requires Literal(prefix)
    ensures Like(prefix + "*", text) <==> prefix <= text
  {
    LikePrefix(prefix, "*", text);
    if prefix <= text {
      LikeAnything(text[|prefix|..]);
    }
  }
}
