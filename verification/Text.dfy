/** ASCII text: case, blanks and dictionary order. */
module Text {
  import opened Sequences

  function Lowered(c: char): char {
    if 'A' <= c <= 'Z' then c - 'A' + 'a' else c
  }

  function Lowercase(s: string): string {
    seq(|s|, i requires 0 <= i < |s| => Lowered(s[i]))
  }

  predicate IsBlank(c: char) {
    c == ' ' || '\t' <= c <= '\r'
  }

  function Stripped(s: string): string {
    if s == "" then ""
    else if IsBlank(s[0]) then Stripped(s[1..])
    else if IsBlank(s[|s| - 1]) then Stripped(s[..|s| - 1])
    else s
  }

  predicate Precedes(a: string, b: string) {
    if a == "" then b != ""
    else if b == "" then false
    else if a[0] != b[0] then a[0] < b[0]
    else Precedes(a[1..], b[1..])
  }

  lemma {:induction false} PrecedesIsTotal(a: string, b: string)
    ensures a == b || Precedes(a, b) || Precedes(b, a)
    ensures !(Precedes(a, b) && Precedes(b, a)) && !Precedes(a, a)
  {
    if a != "" {
      PrecedesIsTotal(a[1..], if b != "" then b[1..] else "");
      assert a == [a[0]] + a[1..];
      assert b != "" ==> b == [b[0]] + b[1..];
    }
  }

  lemma {:induction false} PrecedesIsTransitive(a: string, b: string, c: string)
    requires Precedes(a, b) && Precedes(b, c)
    ensures Precedes(a, c)
  {
    if a != "" && a[0] == b[0] == c[0] {
      PrecedesIsTransitive(a[1..], b[1..], c[1..]);
    }
  }

  lemma PrecedesIsOrder()
    ensures StrictWeakOrder(Precedes)
  {
    hide Precedes;
    forall a, b | Precedes(a, b) ensures !Precedes(b, a) {
      PrecedesIsTotal(a, b);
    }
    forall a, b, c | Precedes(a, b) && Precedes(b, c) ensures Precedes(a, c) {
      PrecedesIsTransitive(a, b, c);
    }
    forall a, b, c | !Precedes(a, b) && !Precedes(b, c) ensures !Precedes(a, c) {
      PrecedesIsTotal(a, b);
      PrecedesIsTotal(b, c);
      PrecedesIsTotal(c, a);
      if Precedes(c, b) && Precedes(b, a) { PrecedesIsTransitive(c, b, a); }
    }
  }

  // What these come to, character by character.

  lemma LoweredIs(c: char)
    ensures 'A' <= c <= 'Z' ==> 'a' <= Lowered(c) <= 'z' && Lowered(c) as int == c as int + 32
    ensures !('A' <= c <= 'Z') ==> Lowered(c) == c
  {
  }

  predicate OnlyBlanks(s: string) {
    forall c :: c in s ==> c == ' ' || c == '\t' || c == '\n' || c == '\U{000b}' || c == '\U{000c}' || c == '\r'
  }

  lemma BlankIsBlank(c: char)
    ensures IsBlank(c) <==> OnlyBlanks([c])
  {
    assert c in [c];
  }

  lemma BlanksGrow(c: char, s: string)
    requires IsBlank(c) && OnlyBlanks(s)
    ensures OnlyBlanks([c] + s) && OnlyBlanks(s + [c])
  {
    BlankIsBlank(c);
    assert c in [c];
  }

  /** Stripping takes blanks off both ends, and all of them. */
  lemma {:induction false} StrippedIsCore(s: string) returns (before: string, after: string)
    ensures s == before + Stripped(s) + after && OnlyBlanks(before) && OnlyBlanks(after)
    ensures var core := Stripped(s); core != "" ==> !OnlyBlanks([core[0]]) && !OnlyBlanks([core[|core| - 1]])
    decreases |s|
  {
    hide OnlyBlanks, IsBlank, Stripped;
    NothingIsBlank();
    before, after := "", "";
    StrippedNext(s);
    if s != "" {
      var first, last := s[0], s[|s| - 1];
      BlankIsBlank(first);
      BlankIsBlank(last);
      if IsBlank(first) {
        var inner;
        inner, after := StrippedIsCore(s[1..]);
        before := [first] + inner;
        BlanksGrow(first, inner);
        assert s == [first] + s[1..] == before + Stripped(s[1..]) + after;
      } else if IsBlank(last) {
        var inner;
        before, inner := StrippedIsCore(s[..|s| - 1]);
        after := inner + [last];
        BlanksGrow(last, inner);
        assert s == s[..|s| - 1] + [last] == before + Stripped(s[..|s| - 1]) + after;
      }
    }
  }

  lemma StrippedNext(s: string)
    ensures s == "" ==> Stripped(s) == ""
    ensures s != "" ==>
      Stripped(s) == if IsBlank(s[0]) then Stripped(s[1..]) else if IsBlank(s[|s| - 1]) then Stripped(s[..|s| - 1]) else s
  {
  }

  lemma NothingIsBlank()
    ensures OnlyBlanks("")
  {
  }

  /** Dictionary order: at the first place where two texts differ, the smaller character, or the end, comes first. */
  lemma {:induction false} FirstDifferenceDecides(a: string, b: string, i: nat)
    requires i <= |a| && i < |b| && a[..i] == b[..i] && (i < |a| ==> a[i] < b[i])
    ensures Precedes(a, b) && !Precedes(b, a)
  {
    if i > 0 {
      assert a[0] == a[..i][0] == b[..i][0] == b[0];
      assert a[1..][..i - 1] == a[..i][1..] && b[1..][..i - 1] == b[..i][1..];
      FirstDifferenceDecides(a[1..], b[1..], i - 1);
    }
  }
}
