/** Constants and pure helpers of the vendored Hammer.js 2.0.6 gesture engine:
    the bit-flag constants, direction classification, the event-name
    suffixes, touch-action reconciliation and the array helpers inArray and
    uniqueArray.
 */
module HammerUtil {
  import opened Js

  /** Input types, directions and recognizer states are small bit flags that
      the engine combines with `|` and tests with `&`. */
  type Flags = bv8

  const INPUT_START: Flags := 1
  const INPUT_MOVE: Flags := 2
  const INPUT_END: Flags := 4
  const INPUT_CANCEL: Flags := 8

  const DIRECTION_NONE: Flags := 1
  const DIRECTION_LEFT: Flags := 2
  const DIRECTION_RIGHT: Flags := 4
  const DIRECTION_UP: Flags := 8
  const DIRECTION_DOWN: Flags := 16
  const DIRECTION_HORIZONTAL: Flags := DIRECTION_LEFT | DIRECTION_RIGHT
  const DIRECTION_VERTICAL: Flags := DIRECTION_UP | DIRECTION_DOWN
  const DIRECTION_ALL: Flags := DIRECTION_HORIZONTAL | DIRECTION_VERTICAL

  const STATE_POSSIBLE: Flags := 1
  const STATE_BEGAN: Flags := 2
  const STATE_CHANGED: Flags := 4
  const STATE_ENDED: Flags := 8
  const STATE_RECOGNIZED: Flags := STATE_ENDED
  const STATE_CANCELLED: Flags := 16
  const STATE_FAILED: Flags := 32

  // ---------------------------------------------------------------------
  // Directions

  /** The direction of a movement (x, y): none when x == y (this includes
      equal non-zero values, a diagonal), otherwise the dominant axis, ties
      going to the horizontal one, and the sign on that axis. */
  function GetDirection(x: int, y: int): (d: Flags)
    ensures d == DIRECTION_NONE <==> x == y
    ensures d == DIRECTION_LEFT <==> x != y && Abs(x) >= Abs(y) && x < 0
    ensures d == DIRECTION_RIGHT <==> x != y && Abs(x) >= Abs(y) && x >= 0
    ensures d == DIRECTION_UP <==> x != y && Abs(x) < Abs(y) && y < 0
    ensures d == DIRECTION_DOWN <==> x != y && Abs(x) < Abs(y) && y >= 0
  {
    if x == y then DIRECTION_NONE
    else if Abs(x) >= Abs(y) then (if x < 0 then DIRECTION_LEFT else DIRECTION_RIGHT)
    else if y < 0 then DIRECTION_UP
    else DIRECTION_DOWN
  }

  /** The direction pointing the other way. */
  function Opposite(d: Flags): Flags
  {
    if d == DIRECTION_LEFT then DIRECTION_RIGHT
    else if d == DIRECTION_RIGHT then DIRECTION_LEFT
    else if d == DIRECTION_UP then DIRECTION_DOWN
    else if d == DIRECTION_DOWN then DIRECTION_UP
    else d
  }

  /** Reversing a movement reverses its direction, except where one
      coordinate is zero and the sign test `< 0` treats 0 as positive. */
  lemma GetDirectionReversed(x: int, y: int)
    requires Abs(x) >= Abs(y) ==> x != 0
    requires Abs(x) < Abs(y) ==> y != 0
    ensures GetDirection(-x, -y) == Opposite(GetDirection(x, y))
  {
  }

  /** A diagonal movement with equal coordinates has no direction, however far
      it goes; an anti-diagonal one is horizontal. */
  lemma DiagonalDirections(n: int)
    requires n != 0
    ensures GetDirection(n, n) == DIRECTION_NONE
    ensures GetDirection(n, -n) == (if n < 0 then DIRECTION_LEFT else DIRECTION_RIGHT)
  {
  }

  /** The suffix of an additional event name ('panleft', 'swipeup'). */
  function DirectionStr(direction: Flags): (s: string)
    ensures s != "" <==> direction in {DIRECTION_DOWN, DIRECTION_UP, DIRECTION_LEFT, DIRECTION_RIGHT}
  {
    if direction == DIRECTION_DOWN then "down"
    else if direction == DIRECTION_UP then "up"
    else if direction == DIRECTION_LEFT then "left"
    else if direction == DIRECTION_RIGHT then "right"
    else ""
  }

  /** Distinct directions get distinct suffixes, so an additional event name
      identifies its direction; a movement has a suffix exactly when it has a
      direction other than none. */
  lemma DirectionStrInjective(a: Flags, b: Flags)
    requires DirectionStr(a) != ""
    requires DirectionStr(a) == DirectionStr(b)
    ensures a == b
  {
  }

  lemma DirectionStrOfMovement(x: int, y: int)
    ensures DirectionStr(GetDirection(x, y)) == "" <==> x == y
  {
  }

  // ---------------------------------------------------------------------
  // States

  /** The suffix of a state event name ('panstart', 'panmove', 'panend',
      'pancancel'): the highest-priority flag set decides, cancel first. */
  function StateStr(state: Flags): (s: string)
    ensures state & STATE_CANCELLED != 0 ==> s == "cancel"
    ensures state & STATE_CANCELLED == 0 && state & STATE_ENDED != 0 ==> s == "end"
    ensures state & (STATE_CANCELLED | STATE_ENDED) == 0 && state & STATE_CHANGED != 0 ==> s == "move"
    ensures state & (STATE_CANCELLED | STATE_ENDED | STATE_CHANGED) == 0 && state & STATE_BEGAN != 0 ==> s == "start"
    ensures s == "" <==> state & (STATE_CANCELLED | STATE_ENDED | STATE_CHANGED | STATE_BEGAN) == 0
  {
    if state & STATE_CANCELLED != 0 then "cancel"
    else if state & STATE_ENDED != 0 then "end"
    else if state & STATE_CHANGED != 0 then "move"
    else if state & STATE_BEGAN != 0 then "start"
    else ""
  }

  /** Adding the cancelled flag to any state names it a cancel, adding the
      ended flag to a state that is not cancelled names it an end. */
  lemma StateStrOfCombined(state: Flags)
    ensures StateStr(state | STATE_CANCELLED) == "cancel"
    ensures state & STATE_CANCELLED == 0 ==> StateStr(state | STATE_ENDED) == "end"
    ensures StateStr(STATE_POSSIBLE) == "" && StateStr(STATE_FAILED) == ""
  {
  }

  // ---------------------------------------------------------------------
  // Touch actions

  /** str.indexOf(find) > -1: find occurs in str as a contiguous substring. */
  predicate InStr(str: string, find: string)
    decreases |str|
  {
    |find| == 0 || (|find| <= |str| && (str[..|find|] == find || InStr(str[1..], find)))
  }

  /** find occurs in str starting at index i. */
  predicate OccursAt(str: string, find: string, i: int)
  {
    0 <= i <= |str| - |find| && str[i..i + |find|] == find
  }

  /** InStr is substring occurrence. */
  lemma {:induction false} InStrAt(str: string, find: string)
    ensures InStr(str, find) <==> exists i :: OccursAt(str, find, i)
    decreases |str|
  {
    if |find| == 0 {
      assert OccursAt(str, find, 0);
    } else if |find| <= |str| {
      InStrAt(str[1..], find);
      if str[..|find|] == find {
        assert OccursAt(str, find, 0);
      } else if InStr(str[1..], find) {
        var i :| OccursAt(str[1..], find, i);
        assert str[i + 1..i + 1 + |find|] == str[1..][i..i + |find|];
        assert OccursAt(str, find, i + 1);
      } else {
        forall i | OccursAt(str, find, i)
          ensures false
        {
          if i > 0 {
            assert OccursAt(str[1..], find, i - 1) by {
              assert str[1..][i - 1..i - 1 + |find|] == str[i..i + |find|];
            }
          }
        }
      }
    } else {
      forall i | OccursAt(str, find, i)
        ensures false
      {
      }
    }
  }

  /** Every character of an occurring string is a character of str. */
  lemma {:induction false} InStrChars(str: string, find: string, c: char)
    requires InStr(str, find) && c in find
    ensures c in str
    decreases |str|
  {
    if str[..|find|] == find {
      assert c in str[..|find|];
    } else {
      InStrChars(str[1..], find, c);
    }
  }

  const TOUCH_ACTION_COMPUTE := "compute"
  const TOUCH_ACTION_AUTO := "auto"
  const TOUCH_ACTION_MANIPULATION := "manipulation"
  const TOUCH_ACTION_NONE := "none"
  const TOUCH_ACTION_PAN_X := "pan-x"
  const TOUCH_ACTION_PAN_Y := "pan-y"

  /** The single touch-action value that satisfies the space-joined actions
      all enabled recognizers asked for. The first matching rule wins:
      'none' anywhere; both pans (which together would let the browser pan
      everything) give 'none'; a single pan; 'manipulation'; else 'auto'. */
  function CleanTouchActions(actions: string): (r: string)
    ensures r in {TOUCH_ACTION_NONE, TOUCH_ACTION_PAN_X, TOUCH_ACTION_PAN_Y, TOUCH_ACTION_MANIPULATION, TOUCH_ACTION_AUTO}
    ensures r == TOUCH_ACTION_NONE <==>
              InStr(actions, TOUCH_ACTION_NONE) ||
              (InStr(actions, TOUCH_ACTION_PAN_X) && InStr(actions, TOUCH_ACTION_PAN_Y))
    ensures r == TOUCH_ACTION_PAN_X <==>
              !InStr(actions, TOUCH_ACTION_NONE) && InStr(actions, TOUCH_ACTION_PAN_X) && !InStr(actions, TOUCH_ACTION_PAN_Y)
    ensures r == TOUCH_ACTION_PAN_Y <==>
              !InStr(actions, TOUCH_ACTION_NONE) && !InStr(actions, TOUCH_ACTION_PAN_X) && InStr(actions, TOUCH_ACTION_PAN_Y)
    ensures r == TOUCH_ACTION_MANIPULATION <==>
              !InStr(actions, TOUCH_ACTION_NONE) && !InStr(actions, TOUCH_ACTION_PAN_X) &&
              !InStr(actions, TOUCH_ACTION_PAN_Y) && InStr(actions, TOUCH_ACTION_MANIPULATION)
  {
    if InStr(actions, TOUCH_ACTION_NONE) then TOUCH_ACTION_NONE
    else
      var hasPanX := InStr(actions, TOUCH_ACTION_PAN_X);
      var hasPanY := InStr(actions, TOUCH_ACTION_PAN_Y);
      if hasPanX && hasPanY then TOUCH_ACTION_NONE
      else if hasPanX || hasPanY then (if hasPanX then TOUCH_ACTION_PAN_X else TOUCH_ACTION_PAN_Y)
      else if InStr(actions, TOUCH_ACTION_MANIPULATION) then TOUCH_ACTION_MANIPULATION
      else TOUCH_ACTION_AUTO
  }

  /** Every cleaned value contains its own keyword. */
  lemma CleanValuesContainThemselves()
    ensures InStr(TOUCH_ACTION_NONE, TOUCH_ACTION_NONE)
    ensures InStr(TOUCH_ACTION_PAN_X, TOUCH_ACTION_PAN_X) && InStr(TOUCH_ACTION_PAN_Y, TOUCH_ACTION_PAN_Y)
    ensures InStr(TOUCH_ACTION_MANIPULATION, TOUCH_ACTION_MANIPULATION)
  {
    assert TOUCH_ACTION_NONE[..|TOUCH_ACTION_NONE|] == TOUCH_ACTION_NONE;
    assert TOUCH_ACTION_PAN_X[..|TOUCH_ACTION_PAN_X|] == TOUCH_ACTION_PAN_X;
    assert TOUCH_ACTION_PAN_Y[..|TOUCH_ACTION_PAN_Y|] == TOUCH_ACTION_PAN_Y;
    assert TOUCH_ACTION_MANIPULATION[..|TOUCH_ACTION_MANIPULATION|] == TOUCH_ACTION_MANIPULATION;
  }

  /** A keyword with a character that str lacks does not occur in str. */
  lemma MissingChar(str: string, find: string, c: char)
    requires c in find && c !in str
    ensures !InStr(str, find)
  {
    if InStr(str, find) {
      InStrChars(str, find, c);
    }
  }

  /** The pan values contain no other keyword: 'o', 'y' and 'x' tell them apart. */
  lemma PanValuesAreClean()
    ensures !InStr(TOUCH_ACTION_PAN_X, TOUCH_ACTION_NONE) && !InStr(TOUCH_ACTION_PAN_X, TOUCH_ACTION_PAN_Y)
    ensures !InStr(TOUCH_ACTION_PAN_Y, TOUCH_ACTION_NONE) && !InStr(TOUCH_ACTION_PAN_Y, TOUCH_ACTION_PAN_X)
  {
    MissingChar(TOUCH_ACTION_PAN_X, TOUCH_ACTION_NONE, 'o');
    MissingChar(TOUCH_ACTION_PAN_X, TOUCH_ACTION_PAN_Y, 'y');
    MissingChar(TOUCH_ACTION_PAN_Y, TOUCH_ACTION_NONE, 'o');
    MissingChar(TOUCH_ACTION_PAN_Y, TOUCH_ACTION_PAN_X, 'x');
  }

  /** 'manipulation' contains none of the keywords ranked above it: it has
      no 'e' and no '-'. */
  lemma ManipulationIsClean(m: string)
    requires m == TOUCH_ACTION_MANIPULATION
    ensures !InStr(m, TOUCH_ACTION_NONE)
    ensures !InStr(m, TOUCH_ACTION_PAN_X)
    ensures !InStr(m, TOUCH_ACTION_PAN_Y)
  {
    assert 'e' !in m && '-' !in m;
    MissingChar(m, TOUCH_ACTION_NONE, 'e');
    MissingChar(m, TOUCH_ACTION_PAN_X, '-');
    MissingChar(m, TOUCH_ACTION_PAN_Y, '-');
  }

  /** 'auto' contains none of the other keywords. */
  lemma AutoIsClean()
    ensures !InStr(TOUCH_ACTION_AUTO, TOUCH_ACTION_NONE) && !InStr(TOUCH_ACTION_AUTO, TOUCH_ACTION_PAN_X)
    ensures !InStr(TOUCH_ACTION_AUTO, TOUCH_ACTION_PAN_Y) && !InStr(TOUCH_ACTION_AUTO, TOUCH_ACTION_MANIPULATION)
  {
    MissingChar(TOUCH_ACTION_AUTO, TOUCH_ACTION_NONE, 'n');
    MissingChar(TOUCH_ACTION_AUTO, TOUCH_ACTION_PAN_X, 'p');
    MissingChar(TOUCH_ACTION_AUTO, TOUCH_ACTION_PAN_Y, 'p');
    MissingChar(TOUCH_ACTION_AUTO, TOUCH_ACTION_MANIPULATION, 'm');
  }

  /** Cleaning an already cleaned value changes nothing: the value the engine
      writes to the element's style is a fixed point of the reconciliation. */
  lemma CleanTouchActionsIdempotent(actions: string)
    ensures CleanTouchActions(CleanTouchActions(actions)) == CleanTouchActions(actions)
  {
    CleanValuesContainThemselves();
    PanValuesAreClean();
    ManipulationIsClean(TOUCH_ACTION_MANIPULATION);
    AutoIsClean();
  }

  // ---------------------------------------------------------------------
  // Arrays

  /** The keys of the elements of s, in order. */
  function Keys<T, K>(s: seq<T>, key: T -> K): (ks: seq<K>)
    ensures |ks| == |s|
    ensures forall i :: 0 <= i < |s| ==> ks[i] == key(s[i])
  {
    seq(|s|, i requires 0 <= i < |s| => key(s[i]))
  }

  /** inArray(src, find, findByKey): the polyfill loop that compares the key of
      every element with find and returns the first matching index, or -1. */
  method InArray<T, K(==)>(src: seq<T>, key: T -> K, find: K) returns (index: int)
    ensures -1 <= index < |src|
    ensures index == -1 <==> find !in Keys(src, key)
    ensures 0 <= index ==> key(src[index]) == find
    ensures forall j :: 0 <= j < index ==> key(src[j]) != find
  {
    var i := 0;
    while i < |src|
      invariant 0 <= i <= |src|
      invariant forall j :: 0 <= j < i ==> key(src[j]) != find
    {
      if key(src[i]) == find {
        return i;
      }
      i := i + 1;
    }
    return -1;
  }

  /** The elements of src whose key did not occur earlier in src, in order:
      what uniqueArray returns before its optional sort. */
  function UniqueByKey<T, K(==)>(src: seq<T>, key: T -> K): seq<T>
    decreases |src|
  {
    if |src| == 0 then []
    else
      var init := src[..|src| - 1];
      var last := src[|src| - 1];
      UniqueByKey(init, key) + (if key(last) in Keys(init, key) then [] else [last])
  }

  /** uniqueArray(src, key) without the sort: every element whose key was
      already seen is dropped. */
  method UniqueArray<T, K(==)>(src: seq<T>, key: T -> K) returns (results: seq<T>)
    ensures results == UniqueByKey(src, key)
  {
    results := [];
    var values: seq<K> := [];
    var i := 0;
    while i < |src|
      invariant 0 <= i <= |src|
      invariant values == Keys(src[..i], key)
      invariant results == UniqueByKey(src[..i], key)
    {
      var val := key(src[i]);
      if IndexOf(values, val) < 0 {
        results := results + [src[i]];
      }
      values := values + [val];
      assert src[..i + 1][..i] == src[..i];
      i := i + 1;
    }
    assert src[..|src|] == src;
  }

  /** The de-duplicated array has no two elements with the same key. */
  lemma {:induction false} UniqueByKeyDistinct<T, K>(src: seq<T>, key: T -> K)
    ensures forall i, j :: 0 <= i < j < |UniqueByKey(src, key)| ==>
              key(UniqueByKey(src, key)[i]) != key(UniqueByKey(src, key)[j])
    ensures forall x :: x in UniqueByKey(src, key) ==> x in src
    decreases |src|
  {
    if |src| > 0 {
      var init := src[..|src| - 1];
      var last := src[|src| - 1];
      UniqueByKeyDistinct(init, key);
      var u := UniqueByKey(init, key);
      var r := UniqueByKey(src, key);
      assert r[..|u|] == u;
      if key(last) !in Keys(init, key) {
        assert r == u + [last];
        forall i | 0 <= i < |u|
          ensures key(r[i]) != key(last)
        {
          assert u[i] in u;
          var m :| 0 <= m < |init| && init[m] == u[i];
          assert Keys(init, key)[m] == key(u[i]);
        }
      } else {
        assert r == u;
      }
      forall x | x in r
        ensures x in src
      {
        if x in u {
          assert x in init;
        }
      }
    }
  }

  /** Every key of src survives de-duplication. */
  lemma {:induction false} UniqueByKeyCovers<T, K>(src: seq<T>, key: T -> K)
    ensures forall k :: k in Keys(src, key) ==> k in Keys(UniqueByKey(src, key), key)
    decreases |src|
  {
    if |src| > 0 {
      var init := src[..|src| - 1];
      var last := src[|src| - 1];
      UniqueByKeyCovers(init, key);
      var u := UniqueByKey(init, key);
      var r := UniqueByKey(src, key);
      assert r[..|u|] == u;
      forall k | k in Keys(src, key)
        ensures k in Keys(r, key)
      {
        var i :| 0 <= i < |src| && Keys(src, key)[i] == k;
        if i < |src| - 1 {
          assert k in Keys(init, key);
          var j :| 0 <= j < |u| && Keys(u, key)[j] == k;
          assert Keys(r, key)[j] == k;
        } else if k in Keys(init, key) {
          var j :| 0 <= j < |u| && Keys(u, key)[j] == k;
          assert Keys(r, key)[j] == k;
        } else {
          assert Keys(r, key)[|r| - 1] == k;
        }
      }
    }
  }
}
