/**
 Pieces of a sequence.
 */
module Slices {

  /** `part` stands in `whole` at position `at`. */
  predicate StandsAt<T(==)>(whole: seq<T>, part: seq<T>, at: nat)
  {
    at + |part| <= |whole| && whole[at..at + |part|] == part
  }

  lemma {:induction false} Within<T>(whole: seq<T>, part: seq<T>, at: nat, p: nat, n: nat)
    requires at + |part| <= |whole| && whole[at..at + |part|] == part && p + n <= |part|
    ensures whole[at + p..at + p + n] == part[p..p + n]
    ensures n > 0 ==> whole[at + p] == part[p]
  {
    assert forall j :: 0 <= j < |part| ==> whole[at + j] == part[j];
  }

  lemma {:induction false} Joined<T>(whole: seq<T>, first: seq<T>, second: seq<T>, at: nat)
    requires StandsAt(whole, first + second, at)
    ensures StandsAt(whole, first, at) && StandsAt(whole, second, at + |first|)
  {
    var both := first + second;
    var part := whole[at..at + |both|];
    assert part == both && both[..|first|] == first && both[|first|..] == second;
    assert whole[at..at + |first|] == part[..|first|];
    assert whole[at + |first|..at + |first| + |second|] == part[|first|..];
  }

  lemma {:induction false} Part<T>(whole: seq<T>, part: seq<T>, at: nat, p: nat, sub: seq<T>)
    requires StandsAt(whole, part, at) && p + |sub| <= |part| && part[p..p + |sub|] == sub
    ensures StandsAt(whole, sub, at + p)
  {
    Within(whole, part, at, p, |sub|);
  }

  lemma {:induction false} ElementAt<T>(whole: seq<T>, part: seq<T>, at: nat, p: nat)
    requires StandsAt(whole, part, at) && p < |part|
    ensures at + |part| <= |whole| && whole[at + p] == part[p]
  {
    assert whole[at..at + |part|][p] == whole[at + p];
  }
}
