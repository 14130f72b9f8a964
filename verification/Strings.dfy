/** Lists of strings put together as one. */
module Strings {
  function Join(parts: seq<string>, separator: string): string {
    if parts == [] then ""
    else if |parts| == 1 then parts[0]
    else Join(parts[..|parts| - 1], separator) + separator + parts[|parts| - 1]
  }

  /** A separator stands between any two parts and nowhere else. */
  lemma {:induction false} JoinAppend(parts: seq<string>, more: seq<string>, separator: string)
    ensures Join(parts + more, separator)
            == if parts == [] then Join(more, separator)
               else if more == [] then Join(parts, separator)
               else Join(parts, separator) + separator + Join(more, separator)
    ensures |parts| == 1 ==> Join(parts, separator) == parts[0]
  {
    if parts == [] {
      assert parts + more == more;
    } else if more == [] {
      assert parts + more == parts;
    } else {
      var init, last := more[..|more| - 1], more[|more| - 1];
      JoinAppend(parts, init, separator);
      assert (parts + more)[..|parts + more| - 1] == parts + init;
      if init == [] {
        assert Join(parts + more, separator) == Join(parts, separator) + separator + last;
      } else {
        calc {
          Join(parts + more, separator);
        ==
          Join(parts, separator) + separator + Join(init, separator) + separator + last;
        ==
          Join(parts, separator) + separator + (Join(init, separator) + separator + last);
        }
      }
    }
  }
}
