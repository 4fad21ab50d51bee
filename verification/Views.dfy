/** String views: cutting at a delimiter and trimming white space. A view is a text and
    not a pointer into one, so what is said here is about contents; positions are the
    business of the code that moves a cursor. The two trimming loops stop at the first
    octet that is not white space, from either end. */
module Views {
  import opened Bytes

  /** `sv_chop_by_delim`: the part before the delimiter, and what follows it. */
  function Before(s: Text, delim: byte): (l: Text)
    ensures |l| <= |s| && delim !in l
  {
    if s == [] || s[0] == delim then [] else [s[0]] + Before(s[1..], delim)
  }

  function After(s: Text, delim: byte): (r: Text)
    ensures |r| <= |s| && (s != [] ==> |r| < |s|)
  {
    if s == [] then [] else if s[0] == delim then s[1..] else After(s[1..], delim)
  }

  lemma {:induction false} ChopAt(l: Text, delim: byte, s: Text)
    requires delim !in l
    ensures Before(l + [delim] + s, delim) == l && After(l + [delim] + s, delim) == s
  {
    var all := l + [delim] + s;
    if l == [] {
      assert all[1..] == s;
    } else {
      assert all[1..] == l[1..] + [delim] + s;
      ChopAt(l[1..], delim, s);
    }
  }

  lemma {:induction false} ChopWhole(s: Text, delim: byte)
    requires delim !in s
    ensures Before(s, delim) == s && After(s, delim) == []
  {
    if s != [] {
      ChopWhole(s[1..], delim);
    }
  }

  /** `isspace`. */
  predicate IsSpace(b: byte) {
    b == 32 || 9 <= b <= 13
  }

  function TrimLeft(s: Text): Text {
    if s != [] && IsSpace(s[0]) then TrimLeft(s[1..]) else s
  }

  function TrimRight(s: Text): Text {
    if s != [] && IsSpace(s[|s| - 1]) then TrimRight(s[..|s| - 1]) else s
  }

  function Trim(s: Text): Text {
    TrimRight(TrimLeft(s))
  }

  predicate Blank(s: Text) {
    forall i :: 0 <= i < |s| ==> IsSpace(s[i])
  }

  /** Text that trimming leaves alone. */
  predicate Tight(s: Text) {
    s != [] ==> !IsSpace(s[0]) && !IsSpace(s[|s| - 1])
  }

  lemma {:induction false} TrimLeftOf(s: Text) returns (w: Text)
    ensures Blank(w) && s == w + TrimLeft(s)
    ensures TrimLeft(s) != [] ==> !IsSpace(TrimLeft(s)[0])
    decreases |s|
  {
    w := [];
    if s != [] && IsSpace(s[0]) {
      var rest := TrimLeftOf(s[1..]);
      w := [s[0]] + rest;
      assert s == [s[0]] + s[1..];
    }
  }

  lemma {:induction false} TrimRightOf(s: Text) returns (w: Text)
    ensures Blank(w) && s == TrimRight(s) + w
    ensures TrimRight(s) != [] ==> !IsSpace(TrimRight(s)[|TrimRight(s)| - 1])
    decreases |s|
  {
    w := [];
    if s != [] && IsSpace(s[|s| - 1]) {
      var front := TrimRightOf(s[..|s| - 1]);
      w := front + [s[|s| - 1]];
      assert s == s[..|s| - 1] + [s[|s| - 1]];
    }
  }

  lemma {:induction false} TrimLeftBlank(w: Text, s: Text)
    requires Blank(w) && (s != [] ==> !IsSpace(s[0]))
    ensures TrimLeft(w + s) == s
  {
    if w == [] {
      assert w + s == s;
    } else {
      assert (w + s)[1..] == w[1..] + s;
      TrimLeftBlank(w[1..], s);
    }
  }

  lemma {:induction false} TrimRightBlank(s: Text, w: Text)
    requires Blank(w) && (s != [] ==> !IsSpace(s[|s| - 1]))
    ensures TrimRight(s + w) == s
  {
    if w == [] {
      assert s + w == s;
    } else {
      assert (s + w)[..|s + w| - 1] == s + w[..|w| - 1];
      TrimRightBlank(s, w[..|w| - 1]);
    }
  }

  /** Trimming gives back exactly what the white space surrounds. */
  lemma TrimTight(before: Text, s: Text, after: Text)
    requires Blank(before) && Blank(after) && Tight(s)
    ensures Trim(before + s + after) == s
  {
    if s == [] {
      assert before + s + after == (before + after) + [];
      TrimLeftBlank(before + after, []);
    } else {
      assert before + s + after == before + (s + after);
      TrimLeftBlank(before, s + after);
      TrimRightBlank(s, after);
    }
  }

  lemma TrimOfTrimLeft(s: Text)
    ensures Trim(TrimLeft(s)) == Trim(s)
  {
    var w := TrimLeftOf(s);
    TrimLeftBlank([], TrimLeft(s));
    assert [] + TrimLeft(s) == TrimLeft(s);
  }

  lemma TrimOfTrimRight(s: Text)
    ensures Trim(TrimRight(s)) == Trim(s)
  {
    var after := TrimRightOf(s);
    var t := TrimRight(s);
    var before := TrimLeftOf(t);
    var core := TrimLeft(t);
    assert core != [] ==> core[|core| - 1] == t[|t| - 1];
    TrimTight(before, core, after);
    TrimTight(before, core, []);
    assert t == before + core + [];
  }

  /** Cutting trimmed text at its first delimiter and trimming the parts is the same
      as cutting the text itself. */
  lemma TrimAround(left: Text, delim: byte, right: Text)
    requires delim !in left && !IsSpace(delim)
    ensures var whole := Trim(left + [delim] + right);
            Trim(Before(whole, delim)) == Trim(left) && Trim(After(whole, delim)) == Trim(right)
  {
    var w := TrimLeftOf(left);
    var w' := TrimRightOf(right);
    var l, r := TrimLeft(left), TrimRight(right);
    assert left + [delim] + right == w + (l + [delim] + r) + w';
    TrimTight(w, l + [delim] + r, w');
    ChopAt(l, delim, r);
    TrimOfTrimLeft(left);
    TrimOfTrimRight(right);
  }
}
