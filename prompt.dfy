/**
  The answer to "already exists. Overwrite? ([N]o, [y]es, overwrite [a]ll, [q]uit)":
  the reply is lowercased and cut to its first character before it is compared.
 */
module OverwritePrompt {

  datatype Choice = Yes | All | Quit | Skip

  /** `str.lower` on one character, for the ASCII letters. */
  function LowerChar(c: char): char {
    if 'A' <= c <= 'Z' then (c as int - 'A' as int + 'a' as int) as char else c
  }

  function Lower(s: string): string {
    seq(|s|, i requires 0 <= i < |s| => LowerChar(s[i]))
  }

  /** `resp = reply.lower()[:1]`, then `resp == 'y'`, `'a'`, `'q'` or anything else. */
  function Decide(reply: string): (c: Choice)
    ensures c == Yes <==> reply != [] && (reply[0] == 'y' || reply[0] == 'Y')
    ensures c == All <==> reply != [] && (reply[0] == 'a' || reply[0] == 'A')
    ensures c == Quit <==> reply != [] && (reply[0] == 'q' || reply[0] == 'Q')
    ensures c == Skip <==> reply == [] || LowerChar(reply[0]) !in "yaq"
  {
    var resp := Lower(reply)[..if reply == [] then 0 else 1];
    assert reply != [] ==> resp == [LowerChar(reply[0])];
    if resp == "y" then Yes
    else if resp == "a" then All
    else if resp == "q" then Quit
    else Skip
  }

  /** Only the first character of a reply counts: 'yes', 'Y' and 'yak' all say yes. */
  lemma DecideFirstCharacter(r1: string, r2: string)
    requires r1[..if r1 == [] then 0 else 1] == r2[..if r2 == [] then 0 else 1]
    ensures Decide(r1) == Decide(r2)
  {
    if r1 != [] {
      assert r1[0] == r1[..1][0];
      assert r2 != [];
      assert r2[0] == r2[..1][0];
    }
  }
}
