/** Free lists as sequences of addresses: that of the frames and that of the heap blocks. */
module Lists {

  function Head(free: seq<nat>): nat {
    if free == [] then 0 else free[0]
  }

  ghost predicate Distinct(s: seq<nat>) {
    forall j, k :: 0 <= j < k < |s| ==> s[j] != s[k]
  }
}
