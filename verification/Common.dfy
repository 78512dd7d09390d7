/** What several modules share: optional values, how sequences regroup, and
    a length that no string of a set has. */
module Common {

  datatype Option<T> = None | Some(value: T)

  lemma Regroup<T>(a: seq<T>, b: seq<T>, c: seq<T>)
    ensures a + (b + c) == a + b + c
  {
  }

  lemma RegroupFour<T>(a: seq<T>, b: seq<T>, c: seq<T>, d: seq<T>)
    ensures a + (b + c + d) == (a + b) + c + d
  {
  }

  lemma TakeFront<T>(a: seq<T>, b: seq<T>)
    ensures (a + b)[..|a|] == a
  {
  }

  lemma CountCons<T>(x: T, rest: seq<T>, y: T)
    ensures multiset([x] + rest)[y] == multiset(rest)[y] + (if x == y then 1 else 0)
  {
  }

  lemma CountHead<T>(s: seq<T>, y: T)
    requires s != []
    ensures multiset(s)[y] == multiset(s[1..])[y] + (if s[0] == y then 1 else 0)
  {
    assert s == [s[0]] + s[1..];
  }

  lemma TakeOneMore<T>(s: seq<T>, i: nat)
    requires i < |s|
    ensures s[..i + 1] == s[..i] + [s[i]]
  {
  }

  lemma {:induction false} LongerThanAll(keys: set<string>) returns (n: nat)
    ensures forall x :: x in keys ==> |x| < n
    decreases |keys|
  {
    if keys == {} {
      n := 0;
    } else {
      var x :| x in keys;
      var m := LongerThanAll(keys - {x});
      n := if m > |x| then m else |x| + 1;
    }
  }
}
