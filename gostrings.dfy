/**
 * The three functions of Go's strings package that the descriptor
 * interpreter relies on: HasPrefix, ReplaceAll with an empty replacement,
 * and Split on a one-character separator (with Join as its inverse).
 */
module GoStrings {

  /** strings.HasPrefix */
  predicate HasPrefix(s: string, prefix: string) {
    |prefix| <= |s| && s[..|prefix|] == prefix
  }

  /** `pat` occurs in `s` starting at index `i`. */
  predicate OccursAt(pat: string, s: string, i: int) {
    0 <= i && i + |pat| <= |s| && s[i..i + |pat|] == pat
  }

  /** `pat` occurs somewhere inside `s`. */
  ghost predicate Occurs(pat: string, s: string) {
    exists i :: OccursAt(pat, s, i)
  }

  /**
   * strings.ReplaceAll(s, pat, "") for a non-empty `pat`: scanning left to
   * right, every occurrence that does not overlap an earlier removed one is
   * dropped, in a single pass.
   */
  function RemoveAll(s: string, pat: string): (r: string)
    requires |pat| > 0
    ensures |r| <= |s|
    decreases |s|
  {
    if |s| == 0 then ""
    else if HasPrefix(s, pat) then RemoveAll(s[|pat|..], pat)
    else [s[0]] + RemoveAll(s[1..], pat)
  }

  /** A string in which `pat` does not occur is left as it is. */
  lemma {:induction false} RemoveAllAbsent(s: string, pat: string)
    requires |pat| > 0 && !Occurs(pat, s)
    ensures RemoveAll(s, pat) == s
    decreases |s|
  {
    if |s| > 0 {
      assert HasPrefix(s, pat) ==> OccursAt(pat, s, 0);
      forall i | OccursAt(pat, s[1..], i) ensures OccursAt(pat, s, i + 1) {
        assert s[i + 1..i + 1 + |pat|] == s[1..][i..i + |pat|];
      }
      RemoveAllAbsent(s[1..], pat);
      assert s == [s[0]] + s[1..];
    }
  }

  /**
   * The value part of a `key_value` token: removing the key from
   * `key + v` gives back `v` when the key does not occur inside `v`.
   */
  lemma RemoveAllKey(key: string, v: string)
    requires |key| > 0 && !Occurs(key, v)
    ensures RemoveAll(key + v, key) == v
  {
    var s := key + v;
    assert HasPrefix(s, key) by { assert s[..|key|] == key; }
    assert s[|key|..] == v;
    RemoveAllAbsent(v, pat := key);
  }

  /**
   * Removal is one pass: an occurrence formed by joining the text around a
   * removed one survives, so "every occurrence is removed" does not hold.
   */
  lemma RemoveAllIsSinglePass()
    ensures RemoveAll("imimage/age/", "image/") == "image/"
    ensures Occurs("image/", RemoveAll("imimage/age/", "image/"))
  {
    var s := "imimage/age/";
    var pat := "image/";
    assert !Occurs(pat, "age/") by {
      forall i ensures !OccursAt(pat, "age/", i) { }
    }
    RemoveAllAbsent("age/", pat);
    assert s[2..] == pat + "age/";
    RemoveAllKey(pat, "age/");
    assert !HasPrefix(s[1..], pat) && s[1..][1..] == s[2..];
    assert RemoveAll(s[1..], pat) == "m" + "age/";
    assert !HasPrefix(s, pat) && s[1..] == "mimage/age/";
    assert RemoveAll(s, pat) == "i" + ("m" + "age/");
    assert OccursAt(pat, "image/", 0);
  }

  /**
   * strings.Split(s, string(sep)): the pieces between separators, always at
   * least one (Split("", sep) is [""]), none containing the separator.
   */
  function Split(s: string, sep: char): (parts: seq<string>)
    ensures |parts| >= 1
    ensures forall i :: 0 <= i < |parts| ==> sep !in parts[i]
    decreases |s|
  {
    if |s| == 0 then [""]
    else
      var rest := Split(s[1..], sep);
      if s[0] == sep then [""] + rest
      else [[s[0]] + rest[0]] + rest[1..]
  }

  /** strings.Join(parts, string(sep)) */
  function Join(parts: seq<string>, sep: char): string
    decreases |parts|
  {
    if |parts| == 0 then ""
    else if |parts| == 1 then parts[0]
    else parts[0] + [sep] + Join(parts[1..], sep)
  }

  /** Joining the pieces of a split gives back the original string. */
  lemma {:induction false} JoinSplit(s: string, sep: char)
    ensures Join(Split(s, sep), sep) == s
    decreases |s|
  {
    if |s| > 0 {
      var rest := Split(s[1..], sep);
      JoinSplit(s[1..], sep);
      if s[0] == sep {
        assert s == [sep] + s[1..];
      } else {
        var parts := Split(s, sep);
        assert parts == [[s[0]] + rest[0]] + rest[1..];
        if |rest| == 1 {
          assert s == [s[0]] + rest[0];
        } else {
          assert rest[1..][0] == rest[1];
          assert parts[1..] == rest[1..];
          assert Join(rest, sep) == rest[0] + [sep] + Join(rest[1..], sep);
          assert s == [s[0]] + s[1..];
        }
      }
    }
  }

  /** Lemma: Split of a string that starts with one piece and continues. */
  lemma {:induction false} SplitPrefix(a: string, t: string, sep: char)
    requires sep !in a
    ensures Split(a + t, sep)[0] == a + Split(t, sep)[0]
    ensures Split(a + t, sep)[1..] == Split(t, sep)[1..]
    decreases |a|
  {
    if |a| > 0 {
      assert (a + t)[1..] == a[1..] + t;
      assert (a + t)[0] == a[0];
      SplitPrefix(a[1..], t, sep);
      assert a == [a[0]] + a[1..];
    } else {
      assert a + t == t;
    }
  }

  /** Splitting joined pieces gives back the pieces, when none holds the separator. */
  lemma {:induction false} SplitJoin(parts: seq<string>, sep: char)
    requires |parts| >= 1
    requires forall i :: 0 <= i < |parts| ==> sep !in parts[i]
    ensures Split(Join(parts, sep), sep) == parts
    decreases |parts|
  {
    if |parts| == 1 {
      SplitPrefix(parts[0], "", sep);
      assert parts[0] + "" == parts[0];
    } else {
      var tail := Join(parts[1..], sep);
      SplitJoin(parts[1..], sep);
      assert Split([sep] + tail, sep) == [""] + Split(tail, sep) by {
        assert ([sep] + tail)[1..] == tail;
      }
      assert Join(parts, sep) == parts[0] + ([sep] + tail);
      SplitPrefix(parts[0], [sep] + tail, sep);
      var r := Split(Join(parts, sep), sep);
      assert r[0] == parts[0];
      assert r[1..] == parts[1..];
      assert r == [r[0]] + r[1..];
    }
  }
}
