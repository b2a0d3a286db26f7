/** The set of values a function takes over the elements of a sequence: the
    classes a password uses and its distinct characters are both such sets. */
module Sequences {

  /** The values `f` takes on the elements of `s`. */
  ghost function Image<T, U>(s: seq<T>, f: T -> U): set<U> {
    set i | 0 <= i < |s| :: f(s[i])
  }

  /** Peeling off the first element of the sequence. */
  lemma ImageCons<T, U>(s: seq<T>, f: T -> U)
    requires s != []
    ensures Image(s, f) == {f(s[0])} + Image(s[1..], f)
  {
    var t := s[1..];
    forall u | u in Image(s, f)
      ensures u in {f(s[0])} + Image(t, f)
    {
      var i :| 0 <= i < |s| && f(s[i]) == u;
      if i > 0 {
        assert t[i - 1] == s[i];
      }
    }
    forall u | u in Image(t, f)
      ensures u in Image(s, f)
    {
      var i :| 0 <= i < |t| && f(t[i]) == u;
      assert s[i + 1] == t[i];
    }
  }

  /** The image of a concatenation is the union of the images of its parts. */
  lemma ImageConcat<T, U>(s: seq<T>, t: seq<T>, f: T -> U)
    ensures Image(s + t, f) == Image(s, f) + Image(t, f)
  {
    var st := s + t;
    forall u | u in Image(st, f)
      ensures u in Image(s, f) + Image(t, f)
    {
      var i :| 0 <= i < |st| && f(st[i]) == u;
      if i < |s| {
        assert st[i] == s[i];
      } else {
        assert st[i] == t[i - |s|];
      }
    }
    forall u | u in Image(s, f) + Image(t, f)
      ensures u in Image(st, f)
    {
      if u in Image(s, f) {
        var i :| 0 <= i < |s| && f(s[i]) == u;
        assert st[i] == s[i];
      } else {
        var i :| 0 <= i < |t| && f(t[i]) == u;
        assert st[|s| + i] == t[i];
      }
    }
  }
}
