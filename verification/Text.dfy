/** Strings as the replication code uses them: order, splitting, joining, decimal numbers. */
module Text {

  /** Byte-wise string order, the order of Go's `sort.Strings`. */
  predicate Less(a: string, b: string) {
    if b == "" then false
    else if a == "" then true
    else if a[0] != b[0] then a[0] < b[0]
    else Less(a[1..], b[1..])
  }

  lemma {:induction false} LessTotal(a: string, b: string)
    ensures a == b ==> !Less(a, b)
    ensures a != b ==> Less(a, b) != Less(b, a)
  {
    if a != "" && b != "" && a[0] == b[0] {
      LessTotal(a[1..], b[1..]);
      assert a == [a[0]] + a[1..] && b == [b[0]] + b[1..];
    }
  }

  lemma {:induction false} LessTransitive(a: string, b: string, c: string)
    requires Less(a, b) && Less(b, c)
    ensures Less(a, c)
  {
    if a != "" && a[0] == b[0] == c[0] {
      LessTransitive(a[1..], b[1..], c[1..]);
    }
  }

  ghost predicate Ascending(s: seq<string>) {
    forall i, j :: 0 <= i < j < |s| ==> Less(s[i], s[j])
  }

  /** Puts `k` at its place in an ascending sequence. */
  function Place(k: string, s: seq<string>): (r: seq<string>)
    ensures multiset(r) == multiset(s) + multiset{k}
  {
    if s == [] || Less(k, s[0]) then [k] + s
    else
      assert s == [s[0]] + s[1..];
      [s[0]] + Place(k, s[1..])
  }

  lemma {:induction false} PlaceAscending(k: string, s: seq<string>)
    requires Ascending(s) && k !in s
    ensures Ascending(Place(k, s))
    ensures forall x :: x in Place(k, s) <==> x == k || x in s
  {
    if s == [] {
    } else if Less(k, s[0]) {
      forall j | 0 <= j < |s| ensures Less(k, s[j]) {
        if j > 0 { LessTransitive(k, s[0], s[j]); }
      }
    } else {
      var rest := s[1..];
      LessTotal(k, s[0]);
      assert forall i, j :: 0 <= i < j < |rest| ==> Less(rest[i], rest[j]) by {
        forall i, j | 0 <= i < j < |rest| ensures Less(rest[i], rest[j]) {
          assert rest[i] == s[i + 1] && rest[j] == s[j + 1];
        }
      }
      PlaceAscending(k, rest);
      var r := Place(k, rest);
      forall x | x in r ensures Less(s[0], x) {
        if x != k {
          var j :| 0 <= j < |rest| && rest[j] == x;
          assert s[j + 1] == x;
        }
      }
      assert forall x :: x in s <==> x == s[0] || x in rest by {
        assert s == [s[0]] + rest;
      }
    }
  }

  function Sort(s: seq<string>): (r: seq<string>)
    ensures multiset(r) == multiset(s)
  {
    if s == [] then []
    else
      assert s == [s[0]] + s[1..];
      Place(s[0], Sort(s[1..]))
  }

  ghost predicate Distinct<T>(s: seq<T>) {
    forall i, j :: 0 <= i < j < |s| ==> s[i] != s[j]
  }

  lemma {:induction false} SortAscending(s: seq<string>)
    requires Distinct(s)
    ensures Ascending(Sort(s))
    ensures forall x :: x in Sort(s) <==> x in s
  {
    if s != [] {
      var rest := s[1..];
      assert s == [s[0]] + rest;
      assert Distinct(rest) by {
        forall i, j | 0 <= i < j < |rest| ensures rest[i] != rest[j] {
          assert rest[i] == s[i + 1] && rest[j] == s[j + 1];
        }
      }
      SortAscending(rest);
      assert s[0] !in rest;
      PlaceAscending(s[0], Sort(rest));
    }
  }

  /** An ascending sequence is determined by its elements. */
  lemma {:induction false} AscendingUnique(a: seq<string>, b: seq<string>)
    requires Ascending(a) && Ascending(b)
    requires forall x :: x in a <==> x in b
    ensures a == b
  {
    assert a == [] <==> b == [] by {
      if a != [] { assert a[0] in b; }
      if b != [] { assert b[0] in a; }
    }
    if a != [] {
      assert a[0] == b[0] by {
        if a[0] != b[0] {
          assert a[0] in b && b[0] in a;
          var i :| 0 <= i < |b| && b[i] == a[0];
          var j :| 0 <= j < |a| && a[j] == b[0];
          assert Less(b[0], b[i]) && Less(a[0], a[j]);
          LessTotal(a[0], b[0]);
        }
      }
      forall x ensures x in a[1..] <==> x in b[1..] {
        TailMembers(a, x);
        TailMembers(b, x);
      }
      TailAscending(a);
      TailAscending(b);
      AscendingUnique(a[1..], b[1..]);
      assert a == [a[0]] + a[1..] && b == [b[0]] + b[1..];
    }
  }

  lemma TailMembers(a: seq<string>, x: string)
    requires Ascending(a) && a != []
    ensures x in a[1..] <==> x in a && x != a[0]
  {
    LessTotal(a[0], a[0]);
    if x in a && x != a[0] {
      var i :| 0 <= i < |a| && a[i] == x;
      assert a[1..][i - 1] == x;
    }
    if x in a[1..] {
      var i :| 0 <= i < |a| - 1 && a[1..][i] == x;
      assert a[i + 1] == x;
    }
  }

  lemma TailAscending(a: seq<string>)
    requires Ascending(a) && a != []
    ensures Ascending(a[1..])
  {
    forall i, j | 0 <= i < j < |a| - 1 ensures Less(a[1..][i], a[1..][j]) {
      assert a[1..][i] == a[i + 1] && a[1..][j] == a[j + 1];
    }
  }

  /** The ascending sequence of a set of names. */
  ghost function KeySeq(names: set<string>): (r: seq<string>)
    ensures Ascending(r)
    ensures forall x :: x in r <==> x in names
  {
    if names == {} then []
    else
      var k :| k in names;
      var rest := KeySeq(names - {k});
      PlaceAscending(k, rest);
      Place(k, rest)
  }

  /** Go's `strings.Join`. */
  function Join(parts: seq<string>, sep: string): string {
    if parts == [] then ""
    else if |parts| == 1 then parts[0]
    else parts[0] + sep + Join(parts[1..], sep)
  }

  /** Go's `strings.Split(s, ".")`. */
  function SplitDots(s: string): (r: seq<string>)
    ensures |r| >= 1
    ensures Join(r, ".") == s
  {
    if s == "" then [""]
    else
      var rest := SplitDots(s[1..]);
      assert s == [s[0]] + s[1..];
      if s[0] == '.' then
        assert ([""] + rest)[1..] == rest;
        [""] + rest
      else
        var head := [s[0]] + rest[0];
        assert ([head] + rest[1..])[1..] == rest[1..];
        [head] + rest[1..]
  }

  lemma {:induction false} SplitPlain(a: string)
    requires '.' !in a
    ensures SplitDots(a) == [a]
  {
    if a != "" {
      SplitPlain(a[1..]);
      assert a == [a[0]] + a[1..];
    }
  }

  lemma {:induction false} SplitQualified(a: string, b: string)
    requires '.' !in a && '.' !in b
    ensures SplitDots(a + "." + b) == [a, b]
  {
    if a == "" {
      assert (a + "." + b)[1..] == b;
      SplitPlain(b);
    } else {
      assert (a + "." + b)[1..] == a[1..] + "." + b;
      SplitQualified(a[1..], b);
      assert a == [a[0]] + a[1..];
    }
  }

  predicate IsDigit(c: char) { '0' <= c <= '9' }

  function Digit(d: nat): char
    requires d < 10
  {
    ['0', '1', '2', '3', '4', '5', '6', '7', '8', '9'][d]
  }

  /** Go's `%d` for a non-negative number. */
  function Itoa(n: nat): string {
    if n < 10 then [Digit(n)] else Itoa(n / 10) + [Digit(n % 10)]
  }

  /** Reads digits greedily after the number `acc`; returns the number and what follows it. */
  function Atoi(s: string, acc: nat): (nat, string) {
    if s != "" && IsDigit(s[0]) then Atoi(s[1..], acc * 10 + (s[0] as int - '0' as int))
    else (acc, s)
  }

  lemma {:induction false} AtoiItoa(n: nat, rest: string)
    ensures Atoi(Itoa(n) + rest, 0) == Atoi(rest, n)
    ensures |Itoa(n)| > 0 && IsDigit(Itoa(n)[0])
  {
    if n < 10 {
      assert (Itoa(n) + rest)[1..] == rest;
    } else {
      var last := [Digit(n % 10)];
      AtoiItoa(n / 10, last + rest);
      assert Itoa(n) + rest == Itoa(n / 10) + (last + rest);
      LastDigit(n, rest);
    }
  }

  lemma LastDigit(n: nat, rest: string)
    ensures Atoi([Digit(n % 10)] + rest, n / 10) == Atoi(rest, n)
  {
    var s := [Digit(n % 10)] + rest;
    assert s[1..] == rest;
    assert s[0] as int - '0' as int == n % 10;
  }
}
