/** `generateInviteCode` of `src/lib/utils.ts`. The random index drawn for each
    position, `Math.floor(Math.random() * chars.length)`, is an input. */
module InviteCode {

  /** The code alphabet, "ABC…Zabc…z012…9": upper-case letters, lower-case
      letters, digits, each run in code-point order. */
  const Chars: string := CharRange('A', 26) + CharRange('a', 26) + CharRange('0', 10)

  predicate IsAlphanumeric(c: char)
  {
    ('A' <= c <= 'Z') || ('a' <= c <= 'z') || ('0' <= c <= '9')
  }

  /** `n` consecutive characters from `first`. */
  function CharRange(first: char, n: nat): (r: string)
    requires first as int + n <= 0x10000 && (first as int + n <= 0xD800 || first as int >= 0xE000)
    ensures |r| == n && forall i :: 0 <= i < n ==> r[i] as int == first as int + i
  {
    seq(n, i requires 0 <= i < n => (first as int + i) as char)
  }

  /** The alphabet holds the 62 ASCII letters and digits, each once, and
      nothing else. */
  lemma AlphabetIsAlphanumeric()
    ensures |Chars| == 62
    ensures forall i :: 0 <= i < |Chars| ==> IsAlphanumeric(Chars[i])
    ensures forall c :: IsAlphanumeric(c) ==> c in Chars
    ensures forall i, j :: 0 <= i < j < |Chars| ==> Chars[i] != Chars[j]
  {
    assert Chars[0] == 'A' && Chars[25] == 'Z' && Chars[26] == 'a' && Chars[51] == 'z';
    assert Chars[52] == '0' && Chars[61] == '9';
    forall c | IsAlphanumeric(c) ensures c in Chars {
      if 'A' <= c <= 'Z' {
        assert Chars[c as int - 'A' as int] == c;
      } else if 'a' <= c <= 'z' {
        assert Chars[26 + c as int - 'a' as int] == c;
      } else {
        assert Chars[52 + c as int - '0' as int] == c;
      }
    }
  }

  /** The loop of `generateInviteCode`: one alphabet character per position,
      chosen by that position's draw; no positions for a length of 0 or less. */
  method GenerateInviteCode(length: int, draws: seq<nat>) returns (code: string)
    requires length <= |draws|
    requires forall i :: 0 <= i < |draws| ==> draws[i] < |Chars|
    ensures |code| == if length <= 0 then 0 else length
    ensures forall i :: 0 <= i < |code| ==> code[i] == Chars[draws[i]]
    ensures forall i :: 0 <= i < |code| ==> IsAlphanumeric(code[i])
  {
    AlphabetIsAlphanumeric();
    code := "";
    var i := 0;
    while i < length
      invariant 0 <= i && (length <= 0 ==> i == 0) && (length > 0 ==> i <= length)
      invariant |code| == i
      invariant forall j :: 0 <= j < i ==> code[j] == Chars[draws[j]]
    {
      code := code + [Chars[draws[i]]];
      i := i + 1;
    }
  }
}
