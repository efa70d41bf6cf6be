/** The pure helpers of `utils/misc.js`: order-preserving de-duplication,
    invite-link ids and random numeric codes. */
module Misc {
  import opened Wrappers
  import opened Seqs
  import opened Text

  // ---------------------------------------------------------------------------
  // getUniqueElements
  // ---------------------------------------------------------------------------

  /** The set of keys carried by the elements of `xs`. */
  function KeysOf<T, K(==)>(xs: seq<T>, key: T -> K): set<K> {
    set i | 0 <= i < |xs| :: key(xs[i])
  }

  ghost predicate DistinctKeys<T, K>(xs: seq<T>, key: T -> K) {
    forall i, j :: 0 <= i < j < |xs| ==> key(xs[i]) != key(xs[j])
  }

  /** Element `j` is the first element of `xs` with its key. */
  ghost predicate IsFirstOfKey<T, K>(xs: seq<T>, key: T -> K, j: int)
    requires 0 <= j < |xs|
  {
    forall k :: 0 <= k < j ==> key(xs[k]) != key(xs[j])
  }

  lemma KeysOfSnoc<T, K>(xs: seq<T>, x: T, key: T -> K)
    ensures KeysOf(xs + [x], key) == KeysOf(xs, key) + {key(x)}
  {
    var ys := xs + [x];
    assert forall i :: 0 <= i < |xs| ==> ys[i] == xs[i];
    assert ys[|xs|] == x;
  }

  /** The reference definition of `getUniqueElements(arr, uniqueKey)`: scanning
      left to right, keep an element exactly when its key has not been seen. */
  function UniqueBy<T, K(==)>(xs: seq<T>, key: T -> K): (r: seq<T>)
    ensures IsSubsequence(r, xs)
    ensures DistinctKeys(r, key)
    ensures KeysOf(r, key) == KeysOf(xs, key)
    decreases |xs|
  {
    if |xs| == 0 then []
    else
      var init := xs[..|xs| - 1];
      var last := xs[|xs| - 1];
      var p := UniqueBy(init, key);
      KeysOfSnoc(init, last, key);
      assert init + [last] == xs;
      if key(last) in KeysOf(init, key) then
        assert IsSubsequence(p, xs) by { assert xs[..|xs| - 1] == init; }
        p
      else
        var r := p + [last];
        assert r[..|r| - 1] == p;
        KeysOfSnoc(p, last, key);
        assert forall i :: 0 <= i < |p| ==> key(r[i]) in KeysOf(p, key);
        r
  }

  /** `getUniqueElements` as the source writes it: a loop over `arr` with a
      set of seen keys, pushing each element whose key is new. */
  method GetUniqueElements<T, K(==)>(arr: seq<T>, key: T -> K) returns (unique: seq<T>)
    ensures unique == UniqueBy(arr, key)
    ensures IsSubsequence(unique, arr)
    ensures DistinctKeys(unique, key)
    ensures KeysOf(unique, key) == KeysOf(arr, key)
  {
    var seen: set<K> := {};
    unique := [];
    var i := 0;
    while i < |arr|
      invariant 0 <= i <= |arr|
      invariant unique == UniqueBy(arr[..i], key)
      invariant seen == KeysOf(arr[..i], key)
    {
      var x := arr[i];
      assert arr[..i + 1] == arr[..i] + [x];
      assert arr[..i + 1][..i] == arr[..i];
      KeysOfSnoc(arr[..i], x, key);
      if key(x) !in seen {
        seen := seen + {key(x)};
        unique := unique + [x];
      }
      i := i + 1;
    }
    assert arr[..|arr|] == arr;
  }

  /** The first occurrence of every key is the one kept. */
  lemma {:induction false} UniqueKeepsFirst<T, K>(xs: seq<T>, key: T -> K, j: int)
    requires 0 <= j < |xs| && IsFirstOfKey(xs, key, j)
    ensures xs[j] in UniqueBy(xs, key)
    decreases |xs|
  {
    var init := xs[..|xs| - 1];
    if j < |xs| - 1 {
      assert IsFirstOfKey(init, key, j) by {
        forall k | 0 <= k < j ensures key(init[k]) != key(init[j]) {
          assert init[k] == xs[k];
        }
      }
      UniqueKeepsFirst(init, key, j);
    } else {
      assert forall k :: 0 <= k < |init| ==> init[k] == xs[k];
      assert key(xs[j]) !in KeysOf(init, key);
    }
  }

  /** De-duplicating a list whose keys are already distinct changes nothing. */
  lemma {:induction false} UniqueOfDistinct<T, K>(xs: seq<T>, key: T -> K)
    requires DistinctKeys(xs, key)
    ensures UniqueBy(xs, key) == xs
    decreases |xs|
  {
    if |xs| > 0 {
      var init := xs[..|xs| - 1];
      assert DistinctKeys(init, key) by {
        forall i, j | 0 <= i < j < |init| ensures key(init[i]) != key(init[j]) {
          assert init[i] == xs[i] && init[j] == xs[j];
        }
      }
      UniqueOfDistinct(init, key);
      assert forall k :: 0 <= k < |init| ==> init[k] == xs[k];
      assert key(xs[|xs| - 1]) !in KeysOf(init, key);
      assert init + [xs[|xs| - 1]] == xs;
    }
  }

  /** `getUniqueElements` is idempotent. */
  lemma UniqueIdempotent<T, K>(xs: seq<T>, key: T -> K)
    ensures UniqueBy(UniqueBy(xs, key), key) == UniqueBy(xs, key)
  {
    UniqueOfDistinct(UniqueBy(xs, key), key);
  }

  // ---------------------------------------------------------------------------
  // generateNewInviteLinkId
  // ---------------------------------------------------------------------------

  /** Width the invite-link id is left-padded to. */
  const InviteLinkIdWidth: nat := 8

  /** `Number(latestEvent[0]?.inviteLinkId || 0)`: no event, or an empty id,
      reads as 0; a digit string reads as its value; anything else is `NaN`. */
  function PreviousInviteNumber(latest: Option<string>): Option<nat> {
    match latest
    case None => Some(0)
    case Some(s) => if AllDigits(s) then Some(ParseDecimal(s)) else None
  }

  /** `String(oldId + 1)`, where `NaN + 1` prints as `NaN`. */
  function NextInviteNumeral(latest: Option<string>): string {
    match PreviousInviteNumber(latest)
    case Some(n) => NatToString(n + 1)
    case None => "NaN"
  }

  /** `generateNewInviteLinkId` after the database read: the successor of the
      latest id, left-padded with zeros to eight characters by the source's loop. */
  method GenerateNewInviteLinkId(latest: Option<string>) returns (id: string)
    ensures var newId := NextInviteNumeral(latest);
      |id| == if |newId| >= InviteLinkIdWidth then |newId| else InviteLinkIdWidth
    ensures PreviousInviteNumber(latest).Some? ==>
      AllDigits(id) && ParseDecimal(id) == PreviousInviteNumber(latest).value + 1
    ensures |NextInviteNumeral(latest)| >= InviteLinkIdWidth ==> id == NextInviteNumeral(latest)
    ensures latest == None ==> id == "00000001"
    ensures PreviousInviteNumber(latest).None? ==> id == "00000NaN"
  {
    var newId := NextInviteNumeral(latest);
    var extraZeros := "";
    var i := 0;
    while i < InviteLinkIdWidth - |newId|
      invariant 0 <= i
      invariant i <= InviteLinkIdWidth - |newId| || i == 0
      invariant extraZeros == Zeros(i)
    {
      extraZeros := extraZeros + "0";
      i := i + 1;
    }
    id := extraZeros + newId;
    if PreviousInviteNumber(latest).Some? {
      ParseLeadingZeros(i, newId);
      ParseNatToString(PreviousInviteNumber(latest).value + 1);
    }
    if |newId| >= InviteLinkIdWidth {
      assert extraZeros == "";
    }
    if latest == None {
      assert newId == "1";
      assert extraZeros == "0000000";
    }
  }

  // ---------------------------------------------------------------------------
  // randomNumbers
  // ---------------------------------------------------------------------------

  /** `Math.floor(Math.random() * 9) + 1` for one draw `x` of `Math.random()`. */
  function DrawDigit(x: real): (c: char)
    requires 0.0 <= x < 1.0
    ensures '1' <= c <= '9'
  {
    var d := (x * 9.0).Floor;
    assert 0 <= d <= 8;
    DigitChar(d + 1)
  }

  /** The value `randomNumbers(length)` returns, as a function of the draws. */
  function RandomCode(length: int, rand: nat -> real): (code: string)
    requires forall i: nat :: 0.0 <= rand(i) < 1.0
    ensures |code| == if length < 0 then 0 else length
    ensures forall i :: 0 <= i < |code| ==> '1' <= code[i] <= '9'
  {
    var code := seq(if length < 0 then 0 else length, i requires 0 <= i => DrawDigit(rand(i)));
    assert forall i :: 0 <= i < |code| ==> code[i] == DrawDigit(rand(i));
    code
  }

  /** `randomNumbers(length)` where the i-th call of `Math.random()` yields `rand(i)`:
      the loop appends one digit per draw while the code is shorter than `length`. */
  method RandomNumbers(length: int, rand: nat -> real) returns (code: string)
    requires forall i: nat :: 0.0 <= rand(i) < 1.0
    ensures |code| == if length < 0 then 0 else length
    ensures forall i :: 0 <= i < |code| ==> '1' <= code[i] <= '9'
    ensures forall i :: 0 <= i < |code| ==> code[i] == DrawDigit(rand(i))
    ensures code == RandomCode(length, rand)
  {
    code := "";
    while |code| < length
      invariant |code| <= if length < 0 then 0 else length
      invariant forall i :: 0 <= i < |code| ==> code[i] == DrawDigit(rand(i))
      decreases length - |code|
    {
      code := code + [DrawDigit(rand(|code|))];
    }
  }

}
