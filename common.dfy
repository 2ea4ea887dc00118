/** Shared vocabulary of the backend model: identifiers, optional values,
    JavaScript truthiness of request fields, and the caller of a route. */
module Common {

  /** Mongo ObjectIds and JWT strings are opaque strings here. */
  type Id = string
  type Token = string
  /** Milliseconds since the epoch, as `Date.now()` returns them. */
  type Time = int

  datatype Option<+T> = None | Some(value: T) {
    function GetOr(default: T): T {
      match this
      case Some(v) => v
      case None => default
    }
  }

  /** The outcome of an operation that can fail with an error of type `E`. */
  datatype Result<+T, +E> = Ok(value: T) | Err(error: E)

  /** A JSON body field holding a string is truthy when present and not "". */
  predicate Truthy(s: Option<string>) {
    s.Some? && s.value != ""
  }

  /** JavaScript `a || b` where `a` is an optional string field and `b` a fallback. */
  function OrElse(a: Option<string>, b: string): (r: string)
    ensures Truthy(a) ==> r == a.value
    ensures !Truthy(a) ==> r == b
  {
    if Truthy(a) then a.value else b
  }

  /** The caller of a protected route, as the route handlers read it
      (`req.user.id`, `req.user.isAdmin`). */
  datatype Principal = Principal(id: Id, isAdmin: bool)

  /** A response: HTTP status and message. */
  datatype Reply = Reply(status: nat, message: string)

  /** Index of the first element satisfying `p`, or -1 (`Array.prototype.findIndex`). */
  function FindFirst<T>(s: seq<T>, p: T -> bool): (i: int)
    ensures -1 <= i < |s|
    ensures i == -1 <==> (forall k :: 0 <= k < |s| ==> !p(s[k]))
    ensures 0 <= i ==> p(s[i]) && forall k :: 0 <= k < i ==> !p(s[k])
  {
    if s == [] then -1
    else if p(s[0]) then 0
    else
      var j := FindFirst(s[1..], p);
      if j == -1 then -1 else j + 1
  }

  /** Index of the first occurrence of `x`, or -1 (`Array.prototype.indexOf`). */
  function IndexOf<T(==)>(s: seq<T>, x: T): (i: int)
    ensures -1 <= i < |s|
    ensures i == -1 <==> x !in s
    ensures 0 <= i ==> s[i] == x && x !in s[..i]
  {
    if s == [] then -1
    else if s[0] == x then 0
    else
      var j := IndexOf(s[1..], x);
      if j == -1 then -1
      else
        assert s[..j + 1] == [s[0]] + s[1..][..j];
        j + 1
  }

  /** `s` with the element at `i` cut out (`Array.prototype.splice(i, 1)`). */
  function Splice<T>(s: seq<T>, i: nat): (r: seq<T>)
    requires i < |s|
    ensures |r| == |s| - 1
  {
    s[..i] + s[i + 1..]
  }

  /** Cutting past the head keeps the head in front. */
  lemma SpliceOfCons<T>(s: seq<T>, i: nat)
    requires 0 < i < |s|
    ensures Splice(s, i) == [s[0]] + Splice(s[1..], i - 1)
  {
    assert s[..i] == [s[0]] + s[1..][..i - 1];
    assert s[i + 1..] == s[1..][i..];
  }

  /** `$addToSet`: `x` is in the result, and an element already there is
      not added twice. */
  function AddToSet<T(==,!new)>(s: seq<T>, x: T): (r: seq<T>)
    ensures x in r
    ensures multiset(r)[x] == if x in s then multiset(s)[x] else 1
    ensures forall y :: y != x ==> multiset(r)[y] == multiset(s)[y]
  {
    if x in s then s else s + [x]
  }

  /** A prefix of `s` is its head followed by a prefix of its tail. */
  lemma PrefixOfCons<T>(s: seq<T>, j: nat)
    requires j < |s|
    ensures s[..j + 1] == [s[0]] + s[1..][..j]
  {
  }

  /** The characters `String.prototype.trim` strips: white space and line
      terminators. */
  predicate IsJsSpace(c: char) {
    || c in {' ', '\t', '\n', '\r', '\U{000B}', '\U{000C}', '\U{00A0}', '\U{1680}',
             '\U{2028}', '\U{2029}', '\U{202F}', '\U{205F}', '\U{3000}', '\U{FEFF}'}
    || ('\U{2000}' <= c <= '\U{200A}')
  }

  /** `s` without its leading white space. */
  function TrimStart(s: string): (r: string)
    ensures |r| <= |s|
    ensures r == [] || !IsJsSpace(r[0])
    ensures forall k :: 0 <= k < |s| - |r| ==> IsJsSpace(s[k])
  {
    if s == [] || !IsJsSpace(s[0]) then s else TrimStart(s[1..])
  }

  /** What `TrimStart` keeps is a suffix of its input. */
  lemma {:induction false} TrimStartIsSuffix(s: string)
    ensures TrimStart(s) == s[|s| - |TrimStart(s)|..]
  {
    if s != [] && IsJsSpace(s[0]) {
      TrimStartIsSuffix(s[1..]);
      assert s[1..][|s| - 1 - |TrimStart(s[1..])|..] == s[|s| - |TrimStart(s)|..];
    }
  }

  /** `s` without its trailing white space. */
  function TrimEnd(s: string): (r: string)
    ensures |r| <= |s| && r == s[..|r|]
    ensures r == [] || !IsJsSpace(r[|r| - 1])
    ensures forall k :: |r| <= k < |s| ==> IsJsSpace(s[k])
  {
    if s == [] || !IsJsSpace(s[|s| - 1]) then s else TrimEnd(s[..|s| - 1])
  }

  /** `String.prototype.trim`, which the `trim: true` schema option applies. */
  function Trim(s: string): (r: string)
    ensures |r| <= |s|
    ensures r == [] || (!IsJsSpace(r[0]) && !IsJsSpace(r[|r| - 1]))
  {
    TrimEnd(TrimStart(s))
  }

  /** What trimming keeps is a contiguous piece of the input with only white
      space around it. */
  lemma TrimIsInterior(s: string)
    ensures exists i, j :: 0 <= i <= j <= |s| && Trim(s) == s[i..j] && SpaceOutside(s, i, j)
  {
    TrimStartIsSuffix(s);
    var t := TrimStart(s);
    var i := |s| - |t|;
    var e := TrimEnd(t);
    var j := i + |e|;
    assert e == s[i..j] by {
      assert t == s[i..];
      assert e == t[..|e|];
    }
    forall k | j <= k < |s| ensures IsJsSpace(s[k]) {
      assert s[k] == t[k - i];
    }
    assert Trim(s) == s[i..j];
    assert SpaceOutside(s, i, j);
  }

  /** Only white space lies before `i` and from `j` on. */
  predicate SpaceOutside(s: string, i: nat, j: nat)
    requires i <= j <= |s|
  {
    && (forall k :: 0 <= k < i ==> IsJsSpace(s[k]))
    && (forall k :: j <= k < |s| ==> IsJsSpace(s[k]))
  }

  /** Trimming twice is trimming once. */
  lemma TrimIdempotent(s: string)
    ensures Trim(Trim(s)) == Trim(s)
  {
    var r := Trim(s);
    assert TrimStart(r) == r;
    assert TrimEnd(r) == r;
  }
}
