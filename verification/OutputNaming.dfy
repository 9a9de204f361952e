/** Names of finished outputs, and the search for a free one. A hard link reserves a name
    atomically and never replaces a file. */
module OutputNaming {
  import opened Digits
  import opened Options

  type Path = string
  type Inode = nat
  type Content = string

  // ---------------------------------------------------------------------------------
  // The numbered candidates of a desired name `stem + ext`.

  function Decimal(n: nat): string {
    if n < 10 then [Digit(n)] else Decimal(n / 10) + [Digit(n % 10)]
  }

  function Suffix(index: nat): string {
    if index == 0 then "" else if index == 1 then "_encoded" else "_encoded-" + Decimal(index)
  }

  function Candidate(stem: string, ext: string, index: nat): Path {
    stem + Suffix(index) + ext
  }

  function Value(s: string): int {
    if s == [] then 0 else Value(s[..|s| - 1]) * 10 + (s[|s| - 1] as int - '0' as int)
  }

  lemma {:induction false} DecimalInverts(n: nat)
    ensures Value(Decimal(n)) == n
  {
    assert Digit(n % 10) as int - '0' as int == n % 10;
    if n < 10 {
      assert Decimal(n)[..0] == [];
    } else {
      DecimalInverts(n / 10);
      assert Decimal(n)[..|Decimal(n)| - 1] == Decimal(n / 10);
    }
  }

  lemma SuffixesDiffer(i: nat, j: nat)
    requires i < j
    ensures Suffix(i) != Suffix(j)
  {
    if i > 1 {
      DecimalInverts(i);
      DecimalInverts(j);
      assert Suffix(i)[9..] == Decimal(i) && Suffix(j)[9..] == Decimal(j);
    } else if j > 1 {
      assert |Suffix(j)| > 8;
    }
  }

  /** Different numbers give different names. */
  lemma CandidatesDiffer(stem: string, ext: string, i: nat, j: nat)
    requires i != j
    ensures Candidate(stem, ext, i) != Candidate(stem, ext, j)
  {
    var a, b := Candidate(stem, ext, i), Candidate(stem, ext, j);
    assert a[|stem|..|a| - |ext|] == Suffix(i) && b[|stem|..|b| - |ext|] == Suffix(j);
    SuffixesDiffer(if i < j then i else j, if i < j then j else i);
  }

  ghost function FirstCandidates(stem: string, ext: string, n: nat): set<Path> {
    if n == 0 then {} else FirstCandidates(stem, ext, n - 1) + {Candidate(stem, ext, n - 1)}
  }

  lemma {:induction false} CandidatesAreMany(stem: string, ext: string, n: nat)
    ensures |FirstCandidates(stem, ext, n)| == n
    ensures forall p :: p in FirstCandidates(stem, ext, n) ==> exists i :: 0 <= i < n && p == Candidate(stem, ext, i)
  {
    if n > 0 {
      CandidatesAreMany(stem, ext, n - 1);
      forall i | 0 <= i < n - 1 ensures Candidate(stem, ext, i) != Candidate(stem, ext, n - 1) {
        CandidatesDiffer(stem, ext, i, n - 1);
      }
    }
  }

  // ---------------------------------------------------------------------------------
  // Linking.

  type Names = map<Path, Inode>

  /** A name that the output may take: not the source, and free or already this file. */
  predicate Fits(names: Names, inode: Inode, source: Path, name: Path) {
    name != source && (name in names ==> names[name] == inode)
  }

  /** The first candidate that fits. */
  ghost predicate IsFirstFit(names: Names, inode: Inode, source: Path, stem: string, ext: string, k: nat) {
    && Fits(names, inode, source, Candidate(stem, ext, k))
    && forall j :: 0 <= j < k ==> !Fits(names, inode, source, Candidate(stem, ext, j))
  }

  /** Pigeonhole: the search gives up no later than one name past the existing ones. */
  lemma SearchIsBounded(names: Names, inode: Inode, source: Path, stem: string, ext: string, n: nat)
    requires forall j :: 0 <= j < n ==> !Fits(names, inode, source, Candidate(stem, ext, j))
    ensures n <= |names| + 1
  {
    var tried := FirstCandidates(stem, ext, n);
    CandidatesAreMany(stem, ext, n);
    assert tried <= names.Keys + {source};
    SubsetIsSmaller(tried, names.Keys + {source});
  }

  /** So some candidate always fits. */
  lemma SomeCandidateFits(names: Names, inode: Inode, source: Path, stem: string, ext: string) returns (k: nat)
    ensures IsFirstFit(names, inode, source, stem, ext, k)
  {
    k := 0;
    while !Fits(names, inode, source, Candidate(stem, ext, k))
      invariant forall j :: 0 <= j < k ==> !Fits(names, inode, source, Candidate(stem, ext, j))
      decreases |names| + 2 - k
    {
      SearchIsBounded(names, inode, source, stem, ext, k);
      k := k + 1;
    }
  }

  lemma {:induction false} SubsetIsSmaller<T>(a: set<T>, b: set<T>)
    requires a <= b
    ensures |a| <= |b|
  {
    if a != {} {
      var x :| x in a;
      SubsetIsSmaller(a - {x}, b - {x});
    }
  }

  /** Running the search again on its own result finds the same name. */
  lemma SearchIsStable(names: Names, staging: Path, source: Path, stem: string, ext: string, k: nat)
    requires staging in names && IsFirstFit(names, names[staging], source, stem, ext, k)
    ensures IsFirstFit(names[Candidate(stem, ext, k) := names[staging]], names[staging], source, stem, ext, k)
  {
    forall j | 0 <= j < k ensures Candidate(stem, ext, j) != Candidate(stem, ext, k) {
      CandidatesDiffer(stem, ext, j, k);
    }
  }

  datatype LinkAnswer = Linked | Exists | Broken

  class FileSystem {
    var names: Names
    var contents: map<Inode, Content>

    ghost predicate Valid()
      reads this
    {
      forall n :: n in names ==> names[n] in contents
    }

    constructor ()
      ensures names == map[] && contents == map[]
    {
      names, contents := map[], map[];
    }

    /** `works` is false when the system call fails for any reason but an existing name. */
    method Link(from: Path, to: Path, works: bool) returns (answer: LinkAnswer)
      modifies this`names
      ensures answer == if from !in old(names) || !works then Broken else if to in old(names) then Exists else Linked
      ensures names == if answer.Linked? then old(names)[to := old(names)[from]] else old(names)
    {
      if from !in names || !works {
        return Broken;
      }
      if to in names {
        return Exists;
      }
      names := names[to := names[from]];
      return Linked;
    }

    method Remove(path: Path)
      modifies this`names
      ensures names == old(names) - {path}
    {
      names := names - {path};
    }

    /** Publishes `staging` under the first candidate that fits. The search ends for every
        finite file system; it never replaces a name and never takes the source. */
    method LinkOutputWithoutOverwrite(staging: Path, stem: string, ext: string, source: Path, works: nat -> bool)
      returns (published: Option<Path>, ghost k: nat)
      modifies this`names
      ensures published.None? ==> names == old(names)
      ensures published.None? ==> staging !in names || exists n :: !works(n)
      ensures published.Some? ==>
                && staging in old(names)
                && IsFirstFit(old(names), old(names)[staging], source, stem, ext, k) && k <= |old(names)| + 1
                && published.value == Candidate(stem, ext, k)
                && names == old(names)[published.value := old(names)[staging]]
    {
      var index := 0;
      while true
        invariant names == old(names)
        invariant staging in names ==>
                    forall j :: 0 <= j < index ==> !Fits(names, names[staging], source, Candidate(stem, ext, j))
        invariant staging !in names ==> forall j :: 0 <= j < index ==> Candidate(stem, ext, j) == source
        decreases |names| + 2 - index
      {
        var candidate := Candidate(stem, ext, index);
        if staging in names {
          SearchIsBounded(names, names[staging], source, stem, ext, index);
        } else if index > 0 {
          CandidatesDiffer(stem, ext, 0, index);
        }
        if candidate != source {
          var answer := Link(staging, candidate, works(index));
          if answer.Linked? || (answer.Exists? && names[candidate] == names[staging]) {
            return Some(candidate), index;
          }
          if answer.Broken? {
            return None, 0;
          }
        }
        index := index + 1;
      }
    }
  }
}
