/** Values shared by every context strategy: optional values, the payload a
    chat message carries, and the two pieces of Python list slicing the
    strategies rely on. */
module Messages {

  datatype Option<+T> = None | Some(value: T) {
    /** A dictionary lookup with a default for a missing key */
    function GetOr(default: T): T {
      match this
      case Some(v) => v
      case None => default
    }
  }

  /** The opaque identifier a chat session is keyed by. */
  type UserId = string

  /** What a history item holds under its 'content' key: either a message
      dictionary whose 'role' and 'content' keys may each be missing, or a
      plain (non-dictionary) string, which is what a summary holds. */
  datatype Payload =
    | Fields(role: Option<string>, content: Option<string>)
    | Text(text: string)

  function Min(a: int, b: int): int {
    if a <= b then a else b
  }

  /** Python's `s[-k:]`: the last k elements for k > 0, but the whole list for
      k == 0 and everything after the first -k elements for k < 0. */
  function TakeLast<T>(s: seq<T>, k: int): (r: seq<T>)
    ensures |r| <= |s| && r == s[|s| - |r|..]
    ensures k > 0 ==> |r| == Min(k, |s|)
    ensures k == 0 ==> r == s
  {
    if k > 0 then s[|s| - Min(k, |s|)..] else s[Min(-k, |s|)..]
  }

  /** Python's `reversed(s)` */
  function Reverse<T>(s: seq<T>): (r: seq<T>)
    ensures |r| == |s|
    ensures forall i :: 0 <= i < |s| ==> r[i] == s[|s| - 1 - i]
  {
    seq(|s|, i requires 0 <= i < |s| => s[|s| - 1 - i])
  }

  lemma ReverseAppend<T>(s: seq<T>, x: T)
    ensures Reverse(s + [x]) == [x] + Reverse(s)
  {
    var r, t := Reverse(s + [x]), [x] + Reverse(s);
    assert |r| == |t|;
    forall i | 0 <= i < |r| ensures r[i] == t[i] {
      if i > 0 {
        assert r[i] == (s + [x])[|s| - i];
      }
    }
  }

  lemma ReverseAppendFront<T>(x: T, s: seq<T>)
    ensures Reverse([x] + s) == Reverse(s) + [x]
  {
    var r, t := Reverse([x] + s), Reverse(s) + [x];
    assert |r| == |t|;
    forall i | 0 <= i < |r| ensures r[i] == t[i] {
      if i < |s| {
        assert r[i] == ([x] + s)[|s| - i];
      }
    }
  }

  /** Reversing the first k of a reversed list gives back the last k of the
      list, in the original order. */
  lemma ReversePrefixOfReverse<T>(s: seq<T>, k: nat)
    requires k <= |s|
    ensures Reverse(Reverse(s)[..k]) == s[|s| - k..]
  {
    var p := Reverse(s)[..k];
    var r, t := Reverse(p), s[|s| - k..];
    assert |r| == |t|;
    forall i | 0 <= i < |r| ensures r[i] == t[i] {
      var j := k - 1 - i;
      assert r[i] == p[j];
      assert p[j] == Reverse(s)[j];
      assert Reverse(s)[j] == s[|s| - 1 - j];
    }
  }
}
