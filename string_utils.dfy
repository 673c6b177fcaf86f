/** kbr/string_utils.py: joining values for messages. */
module StringUtils {

  /** `", ".join(map(str, elements))`; the elements are given already in
      their `str` form. */
  function CommaSep(elements: seq<string>): (r: string)
    ensures elements == [] ==> r == ""
    ensures |elements| == 1 ==> r == elements[0]
    decreases |elements|
  {
    if elements == [] then ""
    else if |elements| == 1 then elements[0]
    else CommaSep(elements[..|elements| - 1]) + ", " + elements[|elements| - 1]
  }

  /** Sum of the lengths of the elements. */
  function TotalLength(elements: seq<string>): nat
  {
    if elements == [] then 0 else TotalLength(elements[..|elements| - 1]) + |elements[|elements| - 1]|
  }

  /** The joined string holds every element and exactly n - 1 separators. */
  lemma {:induction false} CommaSepLength(elements: seq<string>)
    requires elements != []
    ensures |CommaSep(elements)| == TotalLength(elements) + 2 * (|elements| - 1)
    decreases |elements|
  {
    if |elements| > 1 {
      CommaSepLength(elements[..|elements| - 1]);
    }
  }

  /** Appending one element appends one separator and that element, so the
      elements appear in order: the join of a non-empty prefix is a prefix of
      the join. */
  lemma {:induction false} CommaSepAppend(elements: seq<string>, e: string)
    requires elements != []
    ensures CommaSep(elements + [e]) == CommaSep(elements) + ", " + e
  {
    assert (elements + [e])[..|elements|] == elements;
  }

  /** Joining the concatenation of two non-empty lists puts one separator
      between the two joins. */
  lemma {:induction false} CommaSepConcat(a: seq<string>, b: seq<string>)
    requires a != [] && b != []
    ensures CommaSep(a + b) == CommaSep(a) + ", " + CommaSep(b)
    decreases |b|
  {
    if |b| == 1 {
      CommaSepAppend(a, b[0]);
    } else {
      var b' := b[..|b| - 1];
      assert a + b == (a + b') + [b[|b| - 1]];
      CommaSepConcat(a, b');
      CommaSepAppend(a + b', b[|b| - 1]);
      CommaSepAppend(b', b[|b| - 1]);
    }
  }
}
