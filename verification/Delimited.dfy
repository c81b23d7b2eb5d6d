/** Keys built by joining parts with '#': department-scoped partition keys and page keys. Joining
    parts that contain no '#' loses nothing, which is what keeps two records apart. */
module Delimited {
  import opened MemberStatus

  const DELIMITER := '#'

  predicate Free(part: string) {
    DELIMITER !in part
  }

  predicate AllFree(parts: seq<string>) {
    forall p :: p in parts ==> Free(p)
  }

  function Join(parts: seq<string>): string {
    if |parts| == 0 then ""
    else if |parts| == 1 then parts[0]
    else parts[0] + [DELIMITER] + Join(parts[1..])
  }

  function Split(s: string): (parts: seq<string>)
    ensures parts != []
  {
    if s == "" then [""]
    else if s[0] == DELIMITER then [""] + Split(s[1..])
    else
      var rest := Split(s[1..]);
      [[s[0]] + rest[0]] + rest[1..]
  }

  lemma {:induction false} SplitPart(part: string, rest: string)
    requires Free(part)
    ensures Split(part) == [part]
    ensures Split(part + [DELIMITER] + rest) == [part] + Split(rest)
  {
    var whole := part + [DELIMITER] + rest;
    if part == "" {
      assert whole[1..] == rest;
    } else {
      assert part[0] in part;
      forall c | c in part[1..] ensures c in part {}
      SplitPart(part[1..], rest);
      assert whole[1..] == part[1..] + [DELIMITER] + rest;
      assert [part[0]] + part[1..] == part;
    }
  }

  /** Splitting undoes joining. */
  lemma {:induction false} SplitJoin(parts: seq<string>)
    requires parts != [] && AllFree(parts)
    ensures Split(Join(parts)) == parts
  {
    assert parts[0] in parts;
    SplitPart(parts[0], Join(parts[1..]));
    if |parts| > 1 {
      forall p | p in parts[1..] ensures p in parts {}
      SplitJoin(parts[1..]);
      assert [parts[0]] + parts[1..] == parts;
    } else {
      assert parts == [parts[0]];
    }
  }

  lemma JoinInjective(a: seq<string>, b: seq<string>)
    requires a != [] && b != [] && AllFree(a) && AllFree(b)
    ensures Join(a) == Join(b) <==> a == b
  {
    SplitJoin(a);
    SplitJoin(b);
  }

  /** The department-scoped partition key, or None where the builder throws: an empty part, or a
      part carrying the delimiter. */
  function DeptScopedPk(deptId: string, segments: seq<string>): Option<string> {
    if deptId == "" || !Free(deptId) || "" in segments || !AllFree(segments) then None
    else Some(Join(["DEPT", deptId] + segments))
  }

  /** Two scoped keys are equal only when their departments and all their parts are. */
  lemma DeptScopedPkInjective(d1: string, s1: seq<string>, d2: string, s2: seq<string>)
    requires DeptScopedPk(d1, s1).Some? && DeptScopedPk(d2, s2).Some?
    ensures DeptScopedPk(d1, s1) == DeptScopedPk(d2, s2) <==> d1 == d2 && s1 == s2
  {
    var a, b := ["DEPT", d1] + s1, ["DEPT", d2] + s2;
    JoinInjective(a, b);
    assert a[1] == d1 && b[1] == d2 && a[2..] == s1 && b[2..] == s2;
  }

  // ---- Decimal numbers inside keys

  function Digit(d: nat): char
    requires d < 10
  {
    "0123456789"[d]
  }

  function Decimal(n: nat): (s: string)
    ensures s != "" && forall c :: c in s ==> '0' <= c <= '9'
  {
    if n < 10 then [Digit(n)] else Decimal(n / 10) + [Digit(n % 10)]
  }

  lemma {:induction false} DecimalInjective(m: nat, n: nat)
    ensures Decimal(m) == Decimal(n) <==> m == n
    decreases m + n
  {
    var a, b := Decimal(m), Decimal(n);
    if a == b {
      assert a[|a| - 1] == b[|b| - 1];
      if m >= 10 && n >= 10 {
        assert a[..|a| - 1] == Decimal(m / 10) && b[..|b| - 1] == Decimal(n / 10);
        DecimalInjective(m / 10, n / 10);
      }
    }
  }
}
