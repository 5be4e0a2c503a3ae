/** Label patterns: the two ways the code reads an expression such as `lock|spend`. */
module Labels {

  /** JavaScript's `split('|')`. */
  function Split(expr: string): (parts: seq<string>)
    ensures parts != []
  {
    if '|' !in expr then
      [expr]
    else
      var i := IndexOfBar(expr);
      [expr[..i]] + Split(expr[i + 1..])
  }

  function IndexOfBar(expr: string): (i: nat)
    requires '|' in expr
    ensures i < |expr| && expr[i] == '|' && '|' !in expr[..i]
  {
    if expr[0] == '|' then 0 else 1 + IndexOfBar(expr[1..])
  }

  predicate Contains(text: string, part: string) {
    exists i | 0 <= i <= |text| :: OccursAt(text, part, i)
  }

  predicate OccursAt(text: string, part: string, i: nat) {
    i + |part| <= |text| && text[i..i + |part|] == part
  }

  /** `regex(input, pattern)`: an unanchored test, so each alternative only has
      to occur somewhere inside the input. */
  predicate Regex(input: string, pattern: string) {
    pattern == "*" || exists part | part in Split(pattern) :: Contains(input, part)
  }

  /** `get_access_list(expr, labels).wlist`: exact labels. */
  function AccessList(expr: string, labels: seq<string>): seq<string> {
    if expr == "*" then labels else Split(expr)
  }

  /** Everything the exact reading grants, the substring reading grants too. */
  lemma AccessListWithinRegex(expr: string, labels: seq<string>, name: string)
    requires name in AccessList(expr, labels)
    ensures Regex(name, expr)
  {
    if expr != "*" {
      assert OccursAt(name, name, 0);
    }
  }

  /** The converse fails: whatever grants `lock` also passes the test for `unlock`. */
  lemma LockGrantsUnlock(expr: string, labels: seq<string>)
    requires "lock" in AccessList(expr, labels)
    ensures Regex("unlock", expr)
    ensures Listed(expr, labels) && "unlock" !in labels ==> "unlock" !in AccessList(expr, labels)
  {
    assert OccursAt("unlock", "lock", 2);
  }

  /** `check_regex`: the pattern is `*` or names listed labels only. */
  predicate Listed(expr: string, labels: seq<string>) {
    expr == "*" || forall part | part in Split(expr) :: part in labels
  }

  /** When the two readings agree, exactly: on every pattern of listed labels and every listed
      label, if and only if no label of the list occurs inside a different one. */
  lemma ReadingsAgreeExactly(labels: seq<string>)
    requires forall x | x in labels :: '|' !in x && x != "*"
    ensures (forall expr, name | Listed(expr, labels) && name in labels ::
               Regex(name, expr) <==> name in AccessList(expr, labels))
       <==> forall x, y | x in labels && y in labels && Contains(y, x) :: x == y
  {
    if forall expr, name | Listed(expr, labels) && name in labels ::
         Regex(name, expr) <==> name in AccessList(expr, labels) {
      forall x, y | x in labels && y in labels && Contains(y, x) ensures x == y {
        assert Split(x) == [x] && Listed(x, labels) && x in Split(x);
        assert Regex(y, x);
      }
    }
    if forall x, y | x in labels && y in labels && Contains(y, x) :: x == y {
      forall expr, name | Listed(expr, labels) && name in labels
        ensures Regex(name, expr) <==> name in AccessList(expr, labels)
      {
        if name in AccessList(expr, labels) {
          AccessListWithinRegex(expr, labels, name);
        }
      }
    }
  }

  lemma MissingChar(text: string, part: string, i: nat)
    requires i < |part| && part[i] !in text
    ensures !Contains(text, part)
  {
    forall k | 0 <= k <= |text| ensures !OccursAt(text, part, k) {
      if k + |part| <= |text| {
        assert text[k..k + |part|][i] == text[k + i];
      }
    }
  }

  /* ---------- splitting ---------- */

  function Join(parts: seq<string>): string {
    if parts == [] then "" else if |parts| == 1 then parts[0] else parts[0] + "|" + Join(parts[1..])
  }

  lemma FirstBar(a: string, b: string)
    requires '|' !in a
    ensures '|' in a + "|" + b && IndexOfBar(a + "|" + b) == |a|
  {
    var text := a + "|" + b;
    assert text[|a|] == '|';
    assert forall k | 0 <= k < |a| :: text[k] == a[k] && a[k] in a;
  }

  /** Splitting cuts a pattern at every bar: the parts hold none, and put together with bars they
      give the pattern back. */
  lemma {:induction false} SplitJoins(expr: string)
    ensures Join(Split(expr)) == expr && forall part | part in Split(expr) :: '|' !in part
    decreases |expr|
  {
    if '|' in expr {
      var i := IndexOfBar(expr);
      SplitJoins(expr[i + 1..]);
      var rest := Split(expr[i + 1..]);
      assert ([expr[..i]] + rest)[1..] == rest;
      assert expr == expr[..i] + "|" + expr[i + 1..];
    }
  }

  lemma SplitFirst(a: string, b: string)
    requires '|' !in a
    ensures Split(a + "|" + b) == [a] + Split(b)
  {
    var text := a + "|" + b;
    FirstBar(a, b);
    assert text[..|a|] == a && text[|a| + 1..] == b;
  }

  /** And it finds the parts of any pattern that was put together so. */
  lemma {:induction false} JoinSplits(parts: seq<string>)
    requires parts != [] && forall part | part in parts :: '|' !in part
    ensures Split(Join(parts)) == parts
  {
    if |parts| == 1 {
      assert parts == [parts[0]];
    } else {
      hide Split;
      JoinSplits(parts[1..]);
      SplitFirst(parts[0], Join(parts[1..]));
      assert parts == [parts[0]] + parts[1..];
    }
  }
}
