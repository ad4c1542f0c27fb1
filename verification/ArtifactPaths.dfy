/** The free name of src/sidra_ai/creation/artifact_paths.py. */
module ArtifactPaths {
  import opened FiniteSets
  import opened Decimals

  /** The name tried with a serial; the first has none. */
  function Name(stem: string, suffix: string, serial: nat): string {
    if serial <= 1 then stem + suffix else stem + "-" + Decimal(serial) + suffix
  }

  /** Distinct serials are distinct names, whatever the stem and the suffix. */
  lemma NamesDiffer(stem: string, suffix: string, a: nat, b: nat)
    requires 1 <= a && 1 <= b && Name(stem, suffix, a) == Name(stem, suffix, b)
    ensures a == b
  {
    if a > 1 && b > 1 {
      Middle(stem + "-", Decimal(a), Decimal(b), suffix);
      DecimalIsInjective(a, b);
    }
  }

  lemma Middle(head: string, a: string, b: string, tail: string)
    requires head + a + tail == head + b + tail
    ensures a == b
  {
    assert |a| == |b|;
    assert (head + a + tail)[|head|..|head| + |a|] == a;
    assert (head + b + tail)[|head|..|head| + |b|] == b;
  }

  /** The names of the first n serials. */
  ghost function Tried(stem: string, suffix: string, n: nat): set<string> {
    set k | 1 <= k <= n :: Name(stem, suffix, k)
  }

  lemma {:induction false} TriedCount(stem: string, suffix: string, n: nat)
    ensures |Tried(stem, suffix, n)| == n
  {
    if n == 0 {
    } else {
      TriedCount(stem, suffix, n - 1);
      var name := Name(stem, suffix, n);
      assert name !in Tried(stem, suffix, n - 1) by {
        forall k | 1 <= k <= n - 1
          ensures Name(stem, suffix, k) != name
        {
          if Name(stem, suffix, k) == name {
            NamesDiffer(stem, suffix, k, n);
          }
        }
      }
      assert Tried(stem, suffix, n) == Tried(stem, suffix, n - 1) + {name};
    }
  }

  /** A directory of n files leaves a free serial among the first n + 1. */
  lemma SomeSerialIsFree(taken: set<string>, stem: string, suffix: string, n: nat)
    requires forall k :: 1 <= k <= n ==> Name(stem, suffix, k) in taken
    ensures n <= |taken|
  {
    TriedCount(stem, suffix, n);
    SubsetCount(Tried(stem, suffix, n), taken);
  }

  /** The first free name, in the order of the serials, within |taken| + 1 tries. */
  method UniquePath(taken: set<string>, stem: string, suffix: string) returns (path: string, serial: nat)
    ensures path == Name(stem, suffix, serial) && path !in taken
    ensures forall k :: 1 <= k < serial ==> Name(stem, suffix, k) in taken
    ensures 1 <= serial <= |taken| + 1
  {
    path, serial := stem + suffix, 1;
    while path in taken
      invariant serial >= 1 && path == Name(stem, suffix, serial)
      invariant forall k :: 1 <= k < serial ==> Name(stem, suffix, k) in taken
      decreases |taken| + 1 - serial
    {
      SomeSerialIsFree(taken, stem, suffix, serial);
      serial := serial + 1;
      path := stem + "-" + Decimal(serial) + suffix;
    }
    SomeSerialIsFree(taken, stem, suffix, serial - 1);
  }
}
