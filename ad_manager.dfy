/** The bookkeeping of AdManager.kt: the `isInitialized` guard around the
    ad SDK's start-up and the two persisted frequency counters that decide
    when an interstitial is due. Loading and showing ads is not modelled. */
module Ads {

  // ---- Kotlin Int arithmetic ----

  const IntMin: int := -0x8000_0000
  const IntMax: int := 0x7fff_ffff

  /** A Kotlin `Int`. */
  type Int32 = x: int | IntMin <= x <= IntMax

  /** `a + b` on Kotlin `Int`s: the exact sum reduced into 32 bits. */
  function Wrap(x: int): (r: Int32)
    ensures IntMin <= x <= IntMax ==> r == x
    ensures (r - x) % 0x1_0000_0000 == 0
  {
    (x - IntMin) % 0x1_0000_0000 + IntMin
  }

  /** A product of `b > 0` strictly between `-b` and `b` has a zero factor. */
  lemma MulStrict(b: int, t: int)
    requires b > 0 && -b < b * t < b
    ensures t == 0
  {
  }

  /** Euclidean division is unique: any quotient and remainder in range are
      the ones `/` and `%` give. */
  lemma DivModUnique(x: int, b: int, q: int, r: int)
    requires b > 0 && x == b * q + r && 0 <= r < b
    ensures x / b == q && x % b == r
  {
    var q', r' := x / b, x % b;
    assert x == b * q' + r';
    assert b * (q - q') == r' - r;
    MulStrict(b, q - q');
  }

  /** Kotlin's `a % b`, which truncates toward zero: the remainder takes
      the sign of `a`. */
  function Rem(a: int, b: int): (r: int)
    requires b > 0
    ensures a >= 0 ==> 0 <= r < b
    ensures a < 0 ==> -b < r <= 0
  {
    if a >= 0 then a % b else -((-a) % b)
  }

  /** A truncated remainder is zero exactly when the number is a multiple. */
  lemma RemZeroIffMultiple(a: int, b: int)
    requires b > 0
    ensures Rem(a, b) == 0 <==> a % b == 0
  {
    if a < 0 {
      var m := -a;
      var q, r := m / b, m % b;
      assert m == b * q + r;
      if r == 0 {
        DivModUnique(a, b, -q, 0);
      } else {
        assert a == b * (-q - 1) + (b - r);
        DivModUnique(a, b, -q - 1, b - r);
      }
    }
  }

  // ---- The "ad_prefs" preferences file ----

  /** `Constants.PREF_ALBUM_VIEW_COUNT` */
  const AlbumViewCountKey: string := "album_view_count"
  /** `Constants.PREF_PHOTO_IMPORT_COUNT` */
  const PhotoImportCountKey: string := "photo_import_count"
  /** `Constants.ALBUM_VIEW_AD_FREQUENCY` */
  const AlbumViewAdFrequency: int := 5
  /** `Constants.PHOTO_IMPORT_AD_FREQUENCY` */
  const PhotoImportAdFrequency: int := 3

  type IntPrefs = map<string, Int32>

  /** `prefs.getInt(key, 0)` */
  function GetInt(prefs: IntPrefs, key: string): Int32 {
    if key in prefs then prefs[key] else 0
  }

  /** One `shouldShow…Ad` call on the counter `key`: read it, add one, write
      it back, and report whether the new count is a multiple of
      `frequency`. */
  function Tick(prefs: IntPrefs, key: string, frequency: int): (r: (IntPrefs, bool))
    requires frequency > 0
    ensures r.0.Keys == prefs.Keys + {key}
    ensures forall k :: k in prefs && k != key ==> r.0[k] == prefs[k]
    ensures GetInt(prefs, key) < IntMax ==> GetInt(r.0, key) == GetInt(prefs, key) + 1
    ensures GetInt(prefs, key) == IntMax ==> GetInt(r.0, key) == IntMin
    ensures r.1 <==> GetInt(r.0, key) % frequency == 0
  {
    var newCount := Wrap(GetInt(prefs, key) + 1);
    RemZeroIffMultiple(newCount, frequency);
    (prefs[key := newCount], Rem(newCount, frequency) == 0)
  }

  /** `reset…Count`: the counter `key` back to 0, nothing else touched. */
  function Reset(prefs: IntPrefs, key: string): (r: IntPrefs)
    ensures r.Keys == prefs.Keys + {key}
    ensures GetInt(r, key) == 0
    ensures forall k :: k in prefs && k != key ==> r[k] == prefs[k]
  {
    prefs[key := 0]
  }

  /** `n` calls in a row on the same counter: the final entries and what
      each call answered. */
  function Ticks(prefs: IntPrefs, key: string, frequency: int, n: nat): (r: (IntPrefs, seq<bool>))
    requires frequency > 0
    ensures |r.1| == n
    decreases n
  {
    if n == 0 then (prefs, [])
    else
      var before := Ticks(prefs, key, frequency, n - 1);
      var after := Tick(before.0, key, frequency);
      (after.0, before.1 + [after.1])
  }

  /** The number of calls that showed an ad. */
  function Shown(answers: seq<bool>): (c: nat)
    ensures c <= |answers|
  {
    if answers == [] then 0
    else Shown(answers[..|answers| - 1]) + (if answers[|answers| - 1] then 1 else 0)
  }

  /** From a reset counter, the i-th call (counting from 1) shows an ad
      exactly when i is a multiple of the frequency, as long as the count
      stays below `Int.MAX_VALUE`. */
  lemma {:induction false} TicksFromReset(prefs: IntPrefs, key: string, frequency: int, n: nat)
    requires frequency > 0 && n <= IntMax
    ensures GetInt(Ticks(Reset(prefs, key), key, frequency, n).0, key) == n
    ensures var answers := Ticks(Reset(prefs, key), key, frequency, n).1;
      forall i :: 0 <= i < n ==> (answers[i] <==> (i + 1) % frequency == 0)
  {
    if n > 0 {
      TicksFromReset(prefs, key, frequency, n - 1);
    }
  }

  /** So `n` calls after a reset show `n / frequency` ads: one in every
      `frequency`. */
  lemma {:induction false} ShownFromReset(prefs: IntPrefs, key: string, frequency: int, n: nat)
    requires frequency > 0 && n <= IntMax
    ensures Shown(Ticks(Reset(prefs, key), key, frequency, n).1) == n / frequency
  {
    if n > 0 {
      var answers := Ticks(Reset(prefs, key), key, frequency, n).1;
      var earlier := Ticks(Reset(prefs, key), key, frequency, n - 1).1;
      assert answers[..n - 1] == earlier;
      ShownFromReset(prefs, key, frequency, n - 1);
      LastAnswer(prefs, key, frequency, n);
      DivStep(n, frequency);
    }
  }

  /** The n-th call after a reset answers whether n is a multiple. */
  lemma LastAnswer(prefs: IntPrefs, key: string, frequency: int, n: nat)
    requires frequency > 0 && 0 < n <= IntMax
    ensures Ticks(Reset(prefs, key), key, frequency, n).1[n - 1] <==> n % frequency == 0
  {
    TicksFromReset(prefs, key, frequency, n - 1);
  }

  lemma DivStep(n: nat, f: int)
    requires n > 0 && f > 0
    ensures n / f == (n - 1) / f + (if n % f == 0 then 1 else 0)
  {
    var q, r := (n - 1) / f, (n - 1) % f;
    assert n - 1 == f * q + r;
    if r == f - 1 {
      DivModUnique(n, f, q + 1, 0);
    } else {
      DivModUnique(n, f, q, r + 1);
    }
  }

  /** The album-view and photo-import counters do not interfere: a call on
      one leaves the other's count, and so its next answer, as it was. */
  lemma CountersIndependent(prefs: IntPrefs)
    ensures GetInt(Tick(prefs, AlbumViewCountKey, AlbumViewAdFrequency).0, PhotoImportCountKey)
         == GetInt(prefs, PhotoImportCountKey)
    ensures GetInt(Tick(prefs, PhotoImportCountKey, PhotoImportAdFrequency).0, AlbumViewCountKey)
         == GetInt(prefs, AlbumViewCountKey)
    ensures Tick(Tick(prefs, AlbumViewCountKey, AlbumViewAdFrequency).0, PhotoImportCountKey, PhotoImportAdFrequency).1
         == Tick(prefs, PhotoImportCountKey, PhotoImportAdFrequency).1
    ensures GetInt(Reset(prefs, AlbumViewCountKey), PhotoImportCountKey) == GetInt(prefs, PhotoImportCountKey)
    ensures GetInt(Reset(prefs, PhotoImportCountKey), AlbumViewCountKey) == GetInt(prefs, AlbumViewCountKey)
  {
    assert AlbumViewCountKey != PhotoImportCountKey by {
      assert AlbumViewCountKey[0] != PhotoImportCountKey[0];
    }
  }

  /** The count is a Kotlin `Int`: the call after `Int.MAX_VALUE` stores
      `Int.MIN_VALUE`, which is no multiple of 5, and the cadence then runs
      on negative counts. */
  lemma CounterWraps()
    ensures var prefs := map[AlbumViewCountKey := IntMax as Int32];
      var r := Tick(prefs, AlbumViewCountKey, AlbumViewAdFrequency);
      GetInt(r.0, AlbumViewCountKey) == IntMin && !r.1
  {
  }

  // ---- initialize ----

  /** What one `initialize(context, onComplete)` call does: whether it
      starts the SDK, whether the completion callback runs, and the new
      `isInitialized`. */
  datatype InitOutcome = InitOutcome(initialized: bool, sdkStarted: bool, callbackRan: bool)

  /** `sdkCompletes` says whether the SDK's asynchronous completion has run
      by the time the outcome is observed; its handler sets the flag and runs
      the callback. */
  function Initialize(isInitialized: bool, sdkCompletes: bool): (r: InitOutcome)
    ensures isInitialized ==> r.initialized && !r.sdkStarted && r.callbackRan
    ensures !isInitialized ==> r.sdkStarted
    ensures r.callbackRan <==> r.initialized
    ensures isInitialized ==> r.initialized
  {
    if isInitialized then InitOutcome(true, false, true)
    else InitOutcome(sdkCompletes, true, sdkCompletes)
  }

  /** The SDK is started at most once per completed start-up: after one
      call whose completion has run, every later call, whatever the SDK
      would do, just runs its callback. */
  lemma InitializeOnce(isInitialized: bool, first: bool, later: bool)
    requires Initialize(isInitialized, first).initialized
    ensures var again := Initialize(Initialize(isInitialized, first).initialized, later);
      !again.sdkStarted && again.callbackRan && again.initialized
  {
  }

  /** `context.getSharedPreferences("ad_prefs", MODE_PRIVATE)`: its integer
      entries. */
  class AdPrefs {
    var ints: IntPrefs

    constructor (ints: IntPrefs)
      ensures this.ints == ints
    {
      this.ints := ints;
    }
  }

  /** The `AdManager` object's own state. */
  class AdManager {
    var isInitialized: bool

    constructor ()
      ensures !isInitialized
    {
      isInitialized := false;
    }

    /** `initialize(context, onComplete)`; the results say whether the
        SDK was started and whether `onComplete` ran. */
    method Init(sdkCompletes: bool) returns (sdkStarted: bool, callbackRan: bool)
      modifies this
      ensures InitOutcome(isInitialized, sdkStarted, callbackRan) == Initialize(old(isInitialized), sdkCompletes)
    {
      if isInitialized {
        return false, true;
      }
      sdkStarted := true;
      callbackRan := false;
      if sdkCompletes {
        isInitialized := true;
        callbackRan := true;
      }
    }

    /** The shared body of the two `shouldShow…Ad` functions. */
    method Count(prefs: AdPrefs, key: string, frequency: int) returns (show: bool)
      requires frequency > 0
      modifies prefs
      ensures (prefs.ints, show) == Tick(old(prefs.ints), key, frequency)
    {
      var currentCount := GetInt(prefs.ints, key);
      var newCount := Wrap(currentCount as int + 1);
      prefs.ints := prefs.ints[key := newCount];
      show := Rem(newCount, frequency) == 0;
    }

    /** `shouldShowAlbumViewAd(context)` */
    method ShouldShowAlbumViewAd(prefs: AdPrefs) returns (show: bool)
      modifies prefs
      ensures (prefs.ints, show) == Tick(old(prefs.ints), AlbumViewCountKey, AlbumViewAdFrequency)
    {
      show := Count(prefs, AlbumViewCountKey, AlbumViewAdFrequency);
    }

    /** `shouldShowPhotoImportAd(context)` */
    method ShouldShowPhotoImportAd(prefs: AdPrefs) returns (show: bool)
      modifies prefs
      ensures (prefs.ints, show) == Tick(old(prefs.ints), PhotoImportCountKey, PhotoImportAdFrequency)
    {
      show := Count(prefs, PhotoImportCountKey, PhotoImportAdFrequency);
    }

    /** `resetAlbumViewCount(context)` */
    method ResetAlbumViewCount(prefs: AdPrefs)
      modifies prefs
      ensures prefs.ints == Reset(old(prefs.ints), AlbumViewCountKey)
    {
      prefs.ints := prefs.ints[AlbumViewCountKey := 0];
    }

    /** `resetPhotoImportCount(context)` */
    method ResetPhotoImportCount(prefs: AdPrefs)
      modifies prefs
      ensures prefs.ints == Reset(old(prefs.ints), PhotoImportCountKey)
    {
      prefs.ints := prefs.ints[PhotoImportCountKey := 0];
    }
  }
}
