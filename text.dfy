/** The Python string operations the script applies to file lines and CSV cells. */
module Text {

  /** Python's `str.isspace` on one code point: the characters `str.strip()` removes. */
  predicate IsSpace(c: char) {
    var n := c as int;
    n == 0x20 || 0x09 <= n <= 0x0D || 0x1C <= n <= 0x1F || n == 0x85 || n == 0xA0 ||
    n == 0x1680 || 0x2000 <= n <= 0x200A || n == 0x2028 || n == 0x2029 || n == 0x202F ||
    n == 0x205F || n == 0x3000
  }

  /** `s` without its leading whitespace. */
  function TrimStart(s: string): (r: string)
    ensures |r| <= |s| && r == s[|s| - |r|..]
    ensures r == [] || !IsSpace(r[0])
    ensures forall i :: 0 <= i < |s| - |r| ==> IsSpace(s[i])
  {
    if s != [] && IsSpace(s[0]) then TrimStart(s[1..]) else s
  }

  /** `s` without its trailing whitespace. */
  function TrimEnd(s: string): (r: string)
    ensures |r| <= |s| && r == s[..|r|]
    ensures r == [] || !IsSpace(r[|r| - 1])
    ensures forall i :: |r| <= i < |s| ==> IsSpace(s[i])
  {
    if s != [] && IsSpace(s[|s| - 1]) then TrimEnd(s[..|s| - 1]) else s
  }

  /** The number of whitespace characters `str.strip()` removes at the front of `s`. */
  function LeadingSpaces(s: string): nat
  {
    |s| - |TrimStart(s)|
  }

  /** Python's `s.strip()`: the middle of `s` that neither starts nor ends with whitespace,
      everything cut away on either side being whitespace. */
  function Strip(s: string): (r: string)
    ensures LeadingSpaces(s) + |r| <= |s|
    ensures r == s[LeadingSpaces(s)..LeadingSpaces(s) + |r|]
    ensures r == [] || (!IsSpace(r[0]) && !IsSpace(r[|r| - 1]))
    ensures forall i :: 0 <= i < |s| && !(LeadingSpaces(s) <= i < LeadingSpaces(s) + |r|) ==> IsSpace(s[i])
  {
    TrimEnd(TrimStart(s))
  }

  /** Python's `s.replace(target, replacement)` for a one-character target. */
  function ReplaceChar(s: string, target: char, replacement: char): (r: string)
    ensures |r| == |s|
    ensures forall i :: 0 <= i < |s| ==> r[i] == (if s[i] == target then replacement else s[i])
  {
    if s == [] then [] else [if s[0] == target then replacement else s[0]] + ReplaceChar(s[1..], target, replacement)
  }

  /** Python's `s.replace(target, "")` for a one-character target. */
  function RemoveChar(s: string, target: char): (r: string)
    ensures target !in r
    ensures target !in s ==> r == s
  {
    if s == [] then []
    else if s[0] == target then RemoveChar(s[1..], target)
    else [s[0]] + RemoveChar(s[1..], target)
  }

  /** RemoveChar drops exactly the occurrences of the target and keeps every other
      character as often as it occurs. */
  lemma {:induction false} RemoveCharCounts(s: string, target: char)
    ensures |RemoveChar(s, target)| == |s| - multiset(s)[target]
    ensures forall c :: c != target ==> multiset(RemoveChar(s, target))[c] == multiset(s)[c]
  {
    if s != [] {
      assert s == [s[0]] + s[1..];
      RemoveCharCounts(s[1..], target);
    }
  }

  /** Removing the target from a concatenation removes it from each part, so the characters
      kept stay in their order. */
  lemma {:induction false} RemoveCharAppend(a: string, b: string, target: char)
    ensures RemoveChar(a + b, target) == RemoveChar(a, target) + RemoveChar(b, target)
  {
    if a != [] {
      assert (a + b)[0] == a[0];
      assert (a + b)[1..] == a[1..] + b;
      RemoveCharAppend(a[1..], b, target);
    } else {
      assert a + b == b;
    }
  }

  /** A line as `readlines` returns it, text followed by its `'\n'`, loses exactly that newline. */
  lemma RemoveCharOfReadLine(x: string)
    requires '\n' !in x
    ensures RemoveChar(x + ['\n'], '\n') == x
  {
    RemoveCharAppend(x, ['\n'], '\n');
  }

  /** Python's `s.endswith(suffix)`: `s` is some text followed by `suffix`; every string ends
      with the empty string. */
  predicate EndsWith(s: string, suffix: string)
    ensures EndsWith(s, suffix) <==> exists p :: s == p + suffix
  {
    if |suffix| <= |s| && s[|s| - |suffix|..] == suffix then
      assert s == s[..|s| - |suffix|] + suffix;
      true
    else
      false
  }

  /** The separator `"__"` starts at index `i` of `s`. */
  predicate SeparatorAt(s: string, i: int) {
    0 <= i && i + 1 < |s| && s[i] == '_' && s[i + 1] == '_'
  }

  /** Python's `s.split("__")[0]`: the text before the first `"__"`, or all of `s` when it has none. */
  function BeforeSeparator(s: string): (r: string)
    ensures |r| <= |s| && r == s[..|r|]
    ensures forall i :: 0 <= i < |r| ==> !SeparatorAt(s, i)
    ensures |r| < |s| ==> SeparatorAt(s, |r|)
  {
    if |s| < 2 then s
    else if s[0] == '_' && s[1] == '_' then []
    else
      SeparatorAtTail(s);
      [s[0]] + BeforeSeparator(s[1..])
  }

  /** A separator in the tail of `s` is a separator of `s` one place further on. */
  lemma SeparatorAtTail(s: string)
    requires s != []
    ensures forall i :: 1 <= i ==> (SeparatorAt(s, i) <==> SeparatorAt(s[1..], i - 1))
  {
  }

  /** The lexicon key of an image file name (eval_verb_accuracy.py line 37):
      `name.split("__")[0].replace("_", " ")`. It is as long as the text before the first
      `"__"`, keeps its characters except that every `'_'` becomes a space, and has no `'_'` left. */
  function QueryKey(name: string): (key: string)
    ensures |key| == |BeforeSeparator(name)| <= |name|
    ensures forall i :: 0 <= i < |key| ==> key[i] == (if name[i] == '_' then ' ' else name[i])
    ensures '_' !in key
  {
    ReplaceChar(BeforeSeparator(name), '_', ' ')
  }

  /** A name with no `"__"` becomes a key as long as the whole name, so the `'\n'` that
      `readlines` leaves at the end of a line stays at the end of the key. */
  lemma QueryKeyWithoutSeparator(name: string)
    requires forall i :: !SeparatorAt(name, i)
    ensures QueryKey(name) == ReplaceChar(name, '_', ' ')
    ensures |name| > 0 && name[|name| - 1] == '\n' ==> QueryKey(name)[|name| - 1] == '\n'
  {
  }

  /** The key stops at the FIRST `"__"`: with a separator at `i` and none before it, the key is
      exactly the first `i` characters with underscores turned into spaces. */
  lemma QueryKeyAtFirstSeparator(name: string, i: nat)
    requires SeparatorAt(name, i)
    requires forall j :: 0 <= j < i ==> !SeparatorAt(name, j)
    ensures QueryKey(name) == ReplaceChar(name[..i], '_', ' ')
  {
  }
}
