/** Window names: A to Z, then AA, AB and so on, in registration order. */
module WindowNames {
  const LETTERS: nat := 26

  function Letter(digit: nat): char
    requires digit < LETTERS
  {
    'A' + digit as char
  }

  predicate IsLetter(c: char) {
    'A' <= c <= 'Z'
  }

  function Digit(c: char): (d: nat)
    requires IsLetter(c)
  {
    c as int - 'A' as int
  }

  /** A name is a nonempty word of capital letters. */
  ghost predicate IsName(name: string) {
    name != "" && forall i | 0 <= i < |name| :: IsLetter(name[i])
  }

  /** The name of the `index`-th window, read from its last letter. */
  function NameOf(index: nat): (name: string)
    ensures name != ""
  {
    if index < LETTERS then [Letter(index)] else NameOf(index / LETTERS - 1) + [Letter(index % LETTERS)]
  }

  /** Builds the name from its last letter to its first. */
  method IndexToName(index: nat) returns (name: string)
    ensures name == NameOf(index)
  {
    name := "";
    var rest: nat := index;
    while true
      invariant NameOf(index) == NameOf(rest) + name
      decreases rest
    {
      if rest < LETTERS {
        assert rest % LETTERS == rest;
        name := [Letter(rest % LETTERS)] + name;
        assert name == NameOf(index);
        break;
      }
      assert NameOf(rest) + name == NameOf(rest / LETTERS - 1) + ([Letter(rest % LETTERS)] + name);
      name := [Letter(rest % LETTERS)] + name;
      rest := rest / LETTERS - 1;
    }
  }

  /** The index a name stands for. */
  function IndexOf(name: string): nat
    requires IsName(name)
  {
    var last := Digit(name[|name| - 1]);
    if |name| == 1 then last else LETTERS * (IndexOf(name[..|name| - 1]) + 1) + last
  }

  lemma {:induction false} NameIsName(index: nat)
    ensures IsName(NameOf(index))
  {
    if index >= LETTERS { NameIsName(index / LETTERS - 1); }
  }

  /** Names determine their index. */
  lemma {:induction false} IndexOfName(index: nat)
    ensures IsName(NameOf(index)) && IndexOf(NameOf(index)) == index
  {
    NameIsName(index);
    if index >= LETTERS {
      var front := NameOf(index / LETTERS - 1);
      IndexOfName(index / LETTERS - 1);
      assert NameOf(index)[..|front|] == front;
    }
  }

  /** Every word of capital letters is the name of exactly its index. */
  lemma {:induction false} NameOfIndex(name: string)
    requires IsName(name)
    ensures NameOf(IndexOf(name)) == name
  {
    var front, last := name[..|name| - 1], name[|name| - 1];
    assert name == front + [last];
    if |name| > 1 {
      NameOfIndex(front);
      var index, d := IndexOf(front), Digit(last);
      assert (LETTERS * (index + 1) + d) / LETTERS == index + 1 && (LETTERS * (index + 1) + d) % LETTERS == d;
    }
  }

  /** Order of strings, letter by letter. */
  predicate TextBefore(a: string, b: string) {
    if b == "" then false
    else if a == "" then true
    else a[0] < b[0] || (a[0] == b[0] && TextBefore(a[1..], b[1..]))
  }

  /** The order windows are sorted in: shorter names first, then by text. */
  predicate NameBefore(a: string, b: string) {
    |a| < |b| || (|a| == |b| && TextBefore(a, b))
  }

  lemma {:induction false} TextBeforeAppend(a: string, b: string, x: char, y: char)
    requires |a| == |b|
    ensures TextBefore(a + [x], b + [y]) <==> TextBefore(a, b) || (a == b && x < y)
  {
    if a == "" {
      assert a + [x] == [x] && b + [y] == [y];
    } else {
      TextBeforeAppend(a[1..], b[1..], x, y);
      assert (a + [x])[1..] == a[1..] + [x] && (b + [y])[1..] == b[1..] + [y];
      assert a == [a[0]] + a[1..] && b == [b[0]] + b[1..];
    }
  }

  lemma {:induction false} TextIrreflexive(a: string)
    ensures !TextBefore(a, a)
  {
    if a != "" { TextIrreflexive(a[1..]); }
  }

  /** Sorting names by length and then text is sorting windows by index. */
  lemma {:induction false} NamesInOrder(i: nat, j: nat)
    requires i < j
    ensures NameBefore(NameOf(i), NameOf(j))
    decreases j
  {
    if j < LETTERS {
      assert NameOf(i)[0] < NameOf(j)[0];
    } else if i >= LETTERS {
      var p, q := i / LETTERS - 1, j / LETTERS - 1;
      TextBeforeAppend0(NameOf(p), NameOf(q), Letter(i % LETTERS), Letter(j % LETTERS));
      if p < q {
        NamesInOrder(p, q);
      } else {
        assert p == q && i % LETTERS < j % LETTERS;
      }
    }
  }

  lemma TextBeforeAppend0(a: string, b: string, x: char, y: char)
    ensures NameBefore(a, b) || (a == b && x < y) ==> NameBefore(a + [x], b + [y])
  {
    if |a| == |b| { TextBeforeAppend(a, b, x, y); }
  }

  /** The order of names is exactly the order of indices. */
  lemma NameOrder(i: nat, j: nat)
    ensures NameBefore(NameOf(i), NameOf(j)) <==> i < j
  {
    if i < j {
      NamesInOrder(i, j);
    } else {
      if j < i { NamesInOrder(j, i); }
      NotBoth(NameOf(i), NameOf(j));
      TextIrreflexive(NameOf(i));
    }
  }

  lemma {:induction false} NotBoth(a: string, b: string)
    ensures !(NameBefore(a, b) && NameBefore(b, a))
  {
    if |a| == |b| && a != "" { NotBoth(a[1..], b[1..]); }
  }
}
