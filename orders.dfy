/**
 * Three-way comparison and the lexicographic order Python uses for lists,
 * strings and tuples.
 */
module Orders {

  datatype Ordering = Lt | Eq | Gt

  /** `cmp` is a total order: equality is `Eq`, `Lt` and `Gt` are converse, `Lt` is transitive. */
  ghost predicate TotalOrder<T(!new)>(cmp: (T, T) -> Ordering) {
    && (forall x, y :: cmp(x, y) == Eq <==> x == y)
    && (forall x, y :: cmp(x, y) == Lt <==> cmp(y, x) == Gt)
    && (forall x, y, z :: cmp(x, y) == Lt && cmp(y, z) == Lt ==> cmp(x, z) == Lt)
  }

  function CmpInt(a: int, b: int): (o: Ordering)
    ensures o == Lt <==> a < b
    ensures o == Eq <==> a == b
  {
    if a < b then Lt else if a == b then Eq else Gt
  }

  /** Characters compare by code point, that is, as the integers they encode. */
  function CmpChar(a: char, b: char): (o: Ordering)
    ensures o == Lt <==> a < b
    ensures o == Eq <==> a == b
  {
    CmpInt(a as int, b as int)
  }

  /**
   * Python's comparison of two lists (or strings): the first position where
   * they differ decides; a proper prefix is smaller.
   */
  function Lex<T>(a: seq<T>, b: seq<T>, cmp: (T, T) -> Ordering): Ordering {
    if a == [] then (if b == [] then Eq else Lt)
    else if b == [] then Gt
    else
      var c := cmp(a[0], b[0]);
      if c != Eq then c else Lex(a[1..], b[1..], cmp)
  }

  /** Python's `str` comparison: by code point. */
  function CmpString(a: string, b: string): Ordering {
    Lex(a, b, CmpChar)
  }

  lemma CmpIntTotal()
    ensures TotalOrder(CmpInt)
  {
  }

  lemma CmpCharTotal()
    ensures TotalOrder(CmpChar)
  {
  }

  lemma {:induction false} LexEq<T(!new)>(a: seq<T>, b: seq<T>, cmp: (T, T) -> Ordering)
    requires TotalOrder(cmp)
    ensures Lex(a, b, cmp) == Eq <==> a == b
    decreases |a|
  {
    if a != [] && b != [] {
      LexEq(a[1..], b[1..], cmp);
      assert a == [a[0]] + a[1..] && b == [b[0]] + b[1..];
    }
  }

  lemma {:induction false} LexFlip<T(!new)>(a: seq<T>, b: seq<T>, cmp: (T, T) -> Ordering)
    requires TotalOrder(cmp)
    ensures Lex(a, b, cmp) == Lt <==> Lex(b, a, cmp) == Gt
    decreases |a|
  {
    if a != [] && b != [] {
      LexFlip(a[1..], b[1..], cmp);
    }
  }

  lemma {:induction false} LexTrans<T(!new)>(a: seq<T>, b: seq<T>, c: seq<T>, cmp: (T, T) -> Ordering)
    requires TotalOrder(cmp)
    requires Lex(a, b, cmp) == Lt && Lex(b, c, cmp) == Lt
    ensures Lex(a, c, cmp) == Lt
    decreases |a|
  {
    if a != [] && b != [] && c != [] {
      if cmp(a[0], b[0]) == Eq && cmp(b[0], c[0]) == Eq {
        LexTrans(a[1..], b[1..], c[1..], cmp);
      }
    }
  }

  /** The lexicographic extension of a total order is a total order. */
  lemma LexTotal<T(!new)>(cmp: (T, T) -> Ordering)
    requires TotalOrder(cmp)
    ensures TotalOrder((a: seq<T>, b: seq<T>) => Lex(a, b, cmp))
  {
    forall a: seq<T>, b: seq<T> ensures Lex(a, b, cmp) == Eq <==> a == b {
      LexEq(a, b, cmp);
    }
    forall a: seq<T>, b: seq<T> ensures Lex(a, b, cmp) == Lt <==> Lex(b, a, cmp) == Gt {
      LexFlip(a, b, cmp);
    }
    forall a: seq<T>, b: seq<T>, c: seq<T> | Lex(a, b, cmp) == Lt && Lex(b, c, cmp) == Lt
      ensures Lex(a, c, cmp) == Lt
    {
      LexTrans(a, b, c, cmp);
    }
  }

  lemma CmpStringTotal()
    ensures TotalOrder(CmpString)
  {
    CmpCharTotal();
    LexTotal(CmpChar);
    assert forall a, b :: CmpString(a, b) == ((x: string, y: string) => Lex(x, y, CmpChar))(a, b);
  }
}
