/**
 The id generator: eight characters drawn from an alphanumeric sampler,
 lower-cased. The random sampler is a parameter: `sample` stands for the
 characters it produces, of which the first eight are taken.
 */
module Ident {

  /** The length of a generated id. */
  const IdLength := 8

  predicate IsAlphanumeric(c: char)
  {
    ('a' <= c <= 'z') || ('A' <= c <= 'Z') || ('0' <= c <= '9')
  }

  predicate IsLowerAlphanumeric(c: char)
  {
    ('a' <= c <= 'z') || ('0' <= c <= '9')
  }

  /** Lower-cases one ASCII letter; every other character is kept. */
  function ToLower(c: char): (r: char)
    ensures IsAlphanumeric(c) ==> IsLowerAlphanumeric(r)
    ensures !('A' <= c <= 'Z') ==> r == c
    ensures 'A' <= c <= 'Z' ==> 'a' <= r <= 'z' && r as int - 'a' as int == c as int - 'A' as int
  {
    if 'A' <= c <= 'Z' then (c as int - 'A' as int + 'a' as int) as char else c
  }

  /** Lower-cases a text character by character. */
  function Lowercase(s: string): (r: string)
    ensures |r| == |s|
    ensures forall i :: 0 <= i < |s| ==> r[i] == ToLower(s[i])
  {
    if s == [] then [] else [ToLower(s[0])] + Lowercase(s[1..])
  }

  /** The id built from the sampler's output. */
  function Id(sample: seq<char>): (r: string)
    requires |sample| >= IdLength
    requires forall i :: 0 <= i < |sample| ==> IsAlphanumeric(sample[i])
    ensures |r| == IdLength
    ensures forall i :: 0 <= i < |r| ==> IsLowerAlphanumeric(r[i])
    ensures forall i :: 0 <= i < IdLength ==> r[i] == ToLower(sample[i])
  {
    Lowercase(sample[..IdLength])
  }

  /** Two samples give the same id exactly when their first eight characters agree up to case. */
  lemma IdCaseInsensitive(s: seq<char>, t: seq<char>)
    requires |s| >= IdLength && |t| >= IdLength
    requires forall i :: 0 <= i < |s| ==> IsAlphanumeric(s[i])
    requires forall i :: 0 <= i < |t| ==> IsAlphanumeric(t[i])
    ensures Id(s) == Id(t) <==> forall i :: 0 <= i < IdLength ==> ToLower(s[i]) == ToLower(t[i])
  {
  }
}
