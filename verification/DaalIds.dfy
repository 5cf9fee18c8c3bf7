/**
 Whose log entries the collector takes for whose: it goes by a prefix of the log key, which is the instance id, a dash
 and the step number in decimal.
 */
module DaalIds {
  import opened Daal

  function Digits(k: nat): string {
    if k < 10 then [Digit(k)] else Digits(k / 10) + [Digit(k % 10)]
  }

  function Digit(d: nat): char
    requires d < 10
  {
    ('0' as int + d) as char
  }

  /** The log key of an operation. */
  function Name(c: Cid): string {
    c.instance + "-" + Digits(c.step)
  }

  /** The collector takes an entry for an instance's if the id is a prefix of the key. */
  predicate Owns(id: string, c: Cid) {
    id <= Name(c)
  }

  /** Digits only, and no zero at the front of more. */
  predicate BeginsNumber(t: string) {
    (forall i :: 0 <= i < |t| ==> '0' <= t[i] <= '9') && (|t| > 1 ==> t[0] != '0')
  }

  /** Some entry of b would be taken for one of a. */
  predicate Takes(a: string, b: string) {
    a <= b || (b + "-" <= a && BeginsNumber(a[|b| + 1..]))
  }

  // ---- decimal numbers ----

  lemma {:induction false} DigitsBegin(k: nat)
    ensures Digits(k) != [] && BeginsNumber(Digits(k)) && (k > 0 ==> Digits(k)[0] != '0')
  {
    if k >= 10 { DigitsBegin(k / 10); }
  }

  function Value(t: string): nat
    requires BeginsNumber(t)
  {
    if t == [] then 0 else Value(t[..|t| - 1]) * 10 + (t[|t| - 1] as int - '0' as int)
  }

  lemma {:induction false} ValuePositive(t: string)
    requires BeginsNumber(t) && t != [] && t[0] != '0'
    ensures Value(t) > 0
  {
    if |t| > 1 { ValuePositive(t[..|t| - 1]); }
  }

  lemma {:induction false} DigitsOfValue(t: string)
    requires BeginsNumber(t) && t != []
    ensures Digits(Value(t)) == t
  {
    var front, last := t[..|t| - 1], t[|t| - 1];
    if front == [] {
      assert Value(front) == 0;
    } else {
      ValuePositive(front);
      DigitsOfValue(front);
      assert Value(t) / 10 == Value(front);
    }
    assert t == front + [last];
  }

  /** The beginnings of decimal numbers. */
  lemma BeginsSomeNumber(t: string)
    ensures (exists k: nat :: t <= Digits(k)) <==> BeginsNumber(t)
  {
    if k: nat :| t <= Digits(k) {
      DigitsBegin(k);
      assert forall i :: 0 <= i < |t| ==> t[i] == Digits(k)[i];
    }
    if BeginsNumber(t) {
      if t == [] {
        assert t <= Digits(0);
      } else {
        DigitsOfValue(t);
        assert t <= Digits(Value(t));
      }
    }
  }

  // ---- the prefix test ----

  lemma OwnsWhen(a: string, c: Cid)
    ensures Owns(a, c) <==>
              a <= c.instance || (c.instance + "-" <= a && a[|c.instance| + 1..] <= Digits(c.step))
  {
    var b, d := c.instance + "-", Digits(c.step);
    assert Name(c) == b + d;
    if a <= c.instance { assert a <= b; }
    if b <= a {
      assert a == b + a[|b|..];
      if a <= Name(c) { assert forall i :: 0 <= i < |a| - |b| ==> a[|b| + i] == d[i]; }
    } else if a <= Name(c) {
      assert forall i :: 0 <= i < |a| ==> a[i] == (b + d)[i];
    }
  }

  /** The exact condition on two ids for the test to take an entry of the one for an entry of the other. */
  lemma OwnsSomeIffTakes(a: string, b: string)
    ensures (exists step :: Owns(a, Cid(b, step))) <==> Takes(a, b)
  {
    if step: nat :| Owns(a, Cid(b, step)) {
      OwnsWhen(a, Cid(b, step));
      if !(a <= b) { BeginsSomeNumber(a[|b| + 1..]); }
    }
    if Takes(a, b) {
      var step: nat := 0;
      if !(a <= b) {
        BeginsSomeNumber(a[|b| + 1..]);
        step :| a[|b| + 1..] <= Digits(step);
      }
      OwnsWhen(a, Cid(b, step));
      assert Owns(a, Cid(b, step));
    }
  }

  /** No id of the set takes another one's entries. */
  ghost predicate NoneTakes(known: iset<string>) {
    forall a, b :: a in known && b in known && a != b ==> !Takes(a, b)
  }

  /** That is exactly when the test finds an entry's own instance only. */
  lemma OwnsIffInstance(known: iset<string>)
    ensures NoneTakes(known) <==>
              forall a, c: Cid :: a in known && c.instance in known ==> (Owns(a, c) <==> a == c.instance)
  {
    forall c: Cid ensures Owns(c.instance, c) { OwnsWhen(c.instance, c); }
    if NoneTakes(known) {
      forall a, c: Cid | a in known && c.instance in known && a != c.instance ensures !Owns(a, c) {
        OwnsSomeIffTakes(a, c.instance);
        assert c == Cid(c.instance, c.step);
      }
    }
    if forall a, c: Cid :: a in known && c.instance in known ==> (Owns(a, c) <==> a == c.instance) {
      forall a, b | a in known && b in known && a != b ensures !Takes(a, b) {
        OwnsSomeIffTakes(a, b);
        forall step ensures !Owns(a, Cid(b, step)) { assert Cid(b, step).instance == b; }
      }
    }
  }

  /** Ids of one length do not take each other's entries. */
  lemma OneLengthSuffices(known: iset<string>, length: nat)
    requires forall a :: a in known ==> |a| == length
    ensures NoneTakes(known)
  {
  }

  /** With ids of different lengths the test can take another instance's entry, from either side of the dash. */
  lemma OwnsAnother()
    ensures Owns("a", Cid("ab", 0)) && Owns("a-1", Cid("a", 12)) && !Takes("a-01", "a")
  {
    OwnsWhen("a", Cid("ab", 0));
    assert Digits(12) == Digits(1) + [Digit(2)];
    OwnsWhen("a-1", Cid("a", 12));
    assert "a-1"[2..] == "1" && "a-01"[2..] == "01";
  }
}
