/** Lower case and the order of text, character by character. Only ASCII letters have case here. */
module TextOrder {
  function LowerChar(c: char): char {
    if 'A' <= c <= 'Z' then c + 32 as char else c
  }

  function Lower(s: string): (r: string)
    ensures |r| == |s|
  {
    seq(|s|, i requires 0 <= i < |s| => LowerChar(s[i]))
  }

  predicate TextAtMost(a: string, b: string) {
    a == [] || (b != [] && (a[0] < b[0] || (a[0] == b[0] && TextAtMost(a[1..], b[1..]))))
  }

  lemma {:induction false} TextIsOrdered(a: string, b: string, c: string)
    ensures TextAtMost(a, b) || TextAtMost(b, a)
    ensures TextAtMost(a, b) && TextAtMost(b, a) ==> a == b
    ensures TextAtMost(a, b) && TextAtMost(b, c) ==> TextAtMost(a, c)
  {
    if a != [] && b != [] {
      if c != [] {
        TextIsOrdered(a[1..], b[1..], c[1..]);
      } else {
        TextIsOrdered(a[1..], b[1..], c);
      }
      assert a == [a[0]] + a[1..] && b == [b[0]] + b[1..];
    }
  }
}
