/** Texts in character arrays, as the C library's string functions leave them. */
module CStrings {
  function Zeros(n: nat): (s: string)
    ensures |s| == n && forall i :: 0 <= i < n ==> s[i] == '\0'
  {
    seq(n, _ => '\0')
  }

  /** A text up to its first NUL, which is where strncpy stops copying. */
  function CString(text: string): (s: string)
    ensures |s| <= |text| && s == text[..|s|] && '\0' !in s
    ensures |s| < |text| ==> text[|s|] == '\0'
  {
    if text == [] || text[0] == '\0' then [] else [text[0]] + CString(text[1..])
  }

  lemma NoNul(text: string)
    requires '\0' !in text
    ensures CString(text) == text
  {
    assert forall i :: 0 <= i < |text| ==> text[i] in text;
  }

  /** A text without NUL that a buffer starts with, and a NUL behind it. */
  lemma UpTo(text: string, r: string)
    requires '\0' !in text && text <= r && |text| < |r| && r[|text|] == '\0'
    ensures CString(r) == text
  {
    var c := CString(r);
    assert forall i :: 0 <= i < |text| ==> r[i] == text[i] && text[i] in text;
    assert forall i :: 0 <= i < |c| ==> c[i] == r[i] && c[i] in c;
  }

  /** The text of a front of a text. */
  lemma FrontText(text: string, n: nat)
    requires n <= |text|
    ensures CString(text[..n]) == if |CString(text)| < n then CString(text) else text[..n]
  {
    hide CString;
    var front, whole := text[..n], CString(text);
    assert forall i :: 0 <= i < |whole| ==> whole[i] == text[i] && whole[i] in whole;
    if |whole| < n {
      assert whole <= front && front[|whole|] == '\0';
      UpTo(whole, front);
    } else {
      assert forall i :: 0 <= i < n ==> front[i] == whole[i];
      NoNul(front);
    }
  }

  /** strncpy with a count of `n` over the start of a buffer. */
  function Copied(buffer: string, text: string, n: nat): (r: string)
    requires n <= |buffer| && n <= |text|
    ensures |r| == |buffer|
  {
    var c := CString(text[..n]);
    c + Zeros(n - |c|) + buffer[n..]
  }

  /** strncpy: stops at a NUL and pads with NULs, and leaves what is behind the count alone. */
  method StrNCpy(dest: array<char>, js: string, start: nat, n: nat)
    requires n <= dest.Length && start + n <= |js|
    modifies dest
    ensures dest[..] == Copied(old(dest[..]), js[start..start + n], n)
  {
    hide CString;
    ghost var text := js[start..start + n];
    ghost var c := CString(text);
    assert text[..n] == text;
    var i := 0;
    while i < n && js[start + i] != '\0'
      invariant 0 <= i <= |c|
      invariant forall j :: 0 <= j < i ==> dest[j] == c[j]
      invariant forall j :: i <= j < dest.Length ==> dest[j] == old(dest[j])
    {
      assert js[start + i] == text[i];
      dest[i] := js[start + i];
      i := i + 1;
    }
    assert i < n ==> js[start + i] == text[i];
    while i < n
      invariant |c| <= i <= n
      invariant forall j :: 0 <= j < |c| ==> dest[j] == c[j]
      invariant forall j :: |c| <= j < i ==> dest[j] == '\0'
      invariant forall j :: i <= j < dest.Length ==> dest[j] == old(dest[j])
    {
      dest[i] := '\0';
      i := i + 1;
    }
    CopiedAt(old(dest[..]), text, dest[..], n);
  }

  /** A buffer that agrees with a copy at every index is the copy. */
  lemma CopiedAt(before: string, text: string, after: string, n: nat)
    requires n == |text| <= |before| == |after|
    requires forall j :: 0 <= j < |CString(text)| ==> after[j] == CString(text)[j]
    requires forall j :: |CString(text)| <= j < n ==> after[j] == '\0'
    requires forall j :: n <= j < |after| ==> after[j] == before[j]
    ensures after == Copied(before, text, n)
  {
    hide CString;
    assert text[..n] == text;
  }
}
