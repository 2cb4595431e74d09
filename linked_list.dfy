/**
 * The recursive `LinkedList<T>` of the recursive-structures exercise: a node
 * holding a value and the rest of the list, or `Nil`. Indexing walks the
 * nodes with a cursor and a counter; `Display` appends each value to a string
 * that starts with "[", following every value but the last with ", " and the
 * last with "]".
 */
module LinkedLists {
  import opened Outcomes

  datatype LinkedList<T> = List(val: T, next: LinkedList<T>) | Nil

  /** The values of the list, front first. */
  function Elements<T>(list: LinkedList<T>): seq<T> {
    match list
    case Nil => []
    case List(v, next) => [v] + Elements(next)
  }

  /** `index` panics with "Index out of bounds!" when it runs off the end. */
  datatype IndexError = IndexOutOfBounds

  /** `list[index]`: the value of the index-th node, counting from 0. */
  method Index<T>(list: LinkedList<T>, index: nat) returns (r: Result<T, IndexError>)
    ensures r.Ok? <==> index < |Elements(list)|
    ensures r.Ok? ==> r.value == Elements(list)[index]
  {
    var curr := list;
    var i := 0;
    while curr.List?
      invariant i <= index
      invariant i + |Elements(curr)| == |Elements(list)|
      invariant Elements(curr) == Elements(list)[i..]
      decreases curr
    {
      if i == index {
        return Ok(curr.val);
      }
      i := i + 1;
      curr := curr.next;
    }
    return Err(IndexOutOfBounds);
  }

  /** Element 2 of 6 -> 5 -> 4 -> 3 is 4; the list has no element 4. */
  lemma IndexExample()
    ensures Elements(List(6, List(5, List(4, List(3, Nil))))) == [6, 5, 4, 3]
    ensures Elements(List(6, List(5, List(4, List(3, Nil)))))[2] == 4
  {
  }

  /**
   * What `fmt` appends for the nodes from `list` on: "v, " for a node with a
   * successor, "v]" for the last node, nothing for `Nil`.
   */
  function Pieces<T>(list: LinkedList<T>, show: T -> string): string {
    match list
    case Nil => ""
    case List(v, Nil) => show(v) + "]"
    case List(v, next) => show(v) + ", " + Pieces(next, show)
  }

  /** The text `Display` writes: "[" followed by the pieces of every node. */
  function Display<T>(list: LinkedList<T>, show: T -> string): string {
    "[" + Pieces(list, show)
  }

  /** `fmt`: builds the text in a mutable string while walking the nodes. */
  method Fmt<T>(list: LinkedList<T>, show: T -> string) returns (s: string)
    ensures s == Display(list, show)
  {
    s := "[";
    var curr := list;
    while curr.List?
      invariant s + Pieces(curr, show) == Display(list, show)
      decreases curr
    {
      if curr.next.List? {
        s := s + (show(curr.val) + ", ");
      } else {
        s := s + (show(curr.val) + "]");
      }
      curr := curr.next;
    }
  }

  /** The values shown and joined with `sep`. */
  function Join(parts: seq<string>, sep: string): string {
    if |parts| == 0 then ""
    else if |parts| == 1 then parts[0]
    else parts[0] + sep + Join(parts[1..], sep)
  }

  function Shown<T>(xs: seq<T>, show: T -> string): (r: seq<string>)
    ensures |r| == |xs|
    ensures forall i :: 0 <= i < |xs| ==> r[i] == show(xs[i])
  {
    if |xs| == 0 then [] else [show(xs[0])] + Shown(xs[1..], show)
  }

  lemma {:induction false} PiecesJoin<T>(list: LinkedList<T>, show: T -> string)
    requires list.List?
    ensures Pieces(list, show) == Join(Shown(Elements(list), show), ", ") + "]"
  {
    match list
    case List(v, Nil) =>
    case List(v, next) =>
      PiecesJoin(next, show);
      var xs := Elements(list);
      assert xs[1..] == Elements(next);
  }

  /**
   * A non-empty list is shown as "[", its values joined with ", ", and "]";
   * `Nil` is shown as a lone "[", since no node closes the bracket.
   */
  lemma DisplayShape<T>(list: LinkedList<T>, show: T -> string)
    ensures list.Nil? ==> Display(list, show) == "["
    ensures list.List? ==> Display(list, show) == "[" + Join(Shown(Elements(list), show), ", ") + "]"
  {
    if list.List? {
      PiecesJoin(list, show);
    }
  }

  /** The 6 -> 5 -> 4 -> 3 list of integers is shown as "[6, 5, 4, 3]". */
  lemma DisplayExample()
    ensures Display(List(6, List(5, List(4, List(3, Nil)))), (n: int) => if n == 6 then "6" else if n == 5 then "5" else if n == 4 then "4" else "3")
      == "[6, 5, 4, 3]"
  {
  }

  /** How many times `ch` occurs in `s`. */
  function Count(s: string, ch: char): nat {
    multiset(s)[ch]
  }

  /** No shown value contains `ch`. */
  ghost predicate ShowAvoids<T>(list: LinkedList<T>, show: T -> string, ch: char) {
    forall i :: 0 <= i < |Elements(list)| ==> ch !in show(Elements(list)[i])
  }

  lemma CountConcat(a: string, b: string, ch: char)
    ensures Count(a + b, ch) == Count(a, ch) + Count(b, ch)
  {
    assert multiset(a + b) == multiset(a) + multiset(b);
  }

  lemma CountAbsent(s: string, ch: char)
    requires ch !in s
    ensures Count(s, ch) == 0
  {
    assert ch !in multiset(s);
  }

  /** A value-free character of the list is value-free in its tail. */
  lemma ShowAvoidsTail<T>(list: LinkedList<T>, show: T -> string, ch: char)
    requires list.List? && ShowAvoids(list, show, ch)
    ensures ch !in show(list.val) && ShowAvoids(list.next, show, ch)
  {
    assert Elements(list)[0] == list.val;
    forall i | 0 <= i < |Elements(list.next)|
      ensures ch !in show(Elements(list.next)[i])
    {
      assert Elements(list.next)[i] == Elements(list)[i + 1];
    }
  }

  /** The pieces hold no "[" unless a value shows one. */
  lemma {:induction false} PiecesOpen<T>(list: LinkedList<T>, show: T -> string)
    requires ShowAvoids(list, show, '[')
    ensures Count(Pieces(list, show), '[') == 0
  {
    match list
    case Nil =>
    case List(v, next) =>
      ShowAvoidsTail(list, show, '[');
      CountAbsent(show(v), '[');
      if next.List? {
        PiecesOpen(next, show);
        assert Pieces(list, show) == (show(v) + ", ") + Pieces(next, show);
        CountConcat(show(v), ", ", '[');
        CountConcat(show(v) + ", ", Pieces(next, show), '[');
      } else {
        assert Pieces(list, show) == show(v) + "]";
        CountConcat(show(v), "]", '[');
      }
  }

  /** The pieces hold one "]" for a non-empty list, and none for `Nil`, unless a value shows one. */
  lemma {:induction false} PiecesClose<T>(list: LinkedList<T>, show: T -> string)
    requires ShowAvoids(list, show, ']')
    ensures Count(Pieces(list, show), ']') == if list.List? then 1 else 0
  {
    match list
    case Nil =>
    case List(v, next) =>
      ShowAvoidsTail(list, show, ']');
      CountAbsent(show(v), ']');
      if next.List? {
        PiecesClose(next, show);
        assert Pieces(list, show) == (show(v) + ", ") + Pieces(next, show);
        CountConcat(show(v), ", ", ']');
        CountConcat(show(v) + ", ", Pieces(next, show), ']');
      } else {
        assert Pieces(list, show) == show(v) + "]";
        CountConcat(show(v), "]", ']');
      }
  }

  lemma PiecesBrackets<T>(list: LinkedList<T>, show: T -> string)
    requires ShowAvoids(list, show, '[') && ShowAvoids(list, show, ']')
    ensures Count(Pieces(list, show), '[') == 0
    ensures Count(Pieces(list, show), ']') == if list.List? then 1 else 0
  {
    PiecesOpen(list, show);
    PiecesClose(list, show);
  }

  /**
   * When no shown value contains a bracket, the text has exactly one "[" (the
   * first character) and one "]" exactly when the list is non-empty, as its
   * last character.
   */
  lemma DisplayBrackets<T>(list: LinkedList<T>, show: T -> string)
    requires ShowAvoids(list, show, '[') && ShowAvoids(list, show, ']')
    ensures Display(list, show)[0] == '['
    ensures Count(Display(list, show), '[') == 1
    ensures Count(Display(list, show), ']') == if list.List? then 1 else 0
    ensures list.List? <==> Display(list, show)[|Display(list, show)| - 1] == ']'
  {
    PiecesBrackets(list, show);
    assert Display(list, show) == "[" + Pieces(list, show);
    if list.List? {
      PiecesLast(list, show);
    }
  }

  lemma {:induction false} PiecesLast<T>(list: LinkedList<T>, show: T -> string)
    requires list.List?
    ensures |Pieces(list, show)| >= 1 && Pieces(list, show)[|Pieces(list, show)| - 1] == ']'
  {
    match list
    case List(v, Nil) =>
    case List(v, next) =>
      PiecesLast(next, show);
  }
}
