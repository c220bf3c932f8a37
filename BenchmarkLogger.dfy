/**
 * `initiate_log_file` (Modules/initiate_benchmark_logger_Latin.py): the log
 * file of a benchmark run lives in a per-month folder under the user's
 * benchmark-log directory and is named after the day and the login; when that
 * name is taken, the first free `_2`, `_3`, ... variant is used. The login,
 * today's date and the files already on disk are inputs.
 */
module BenchmarkLogger {
  import opened Wrappers
  import opened Text
  import opened Dates

  /** The benchmark-log directory of a user (line 9). */
  function LogRoot(login: string): string
  {
    "C:\\Users\\" + login + "\\rystadenergy.com\\rystadenergy.com - Gas\\VR\\BenchmarkLog"
  }

  /** The month folder: the log directory, a backslash, and `YYYYMMDD` without its last two characters (lines 8-14). */
  function MonthFolder(login: string, today: Date): (r: string)
    requires Valid(today)
    ensures var stamp := Yyyymmdd(today);
            r == LogRoot(login) + "\\" + stamp[..|stamp| - 2]
    ensures var month := r[|r| - 6..];
            IsDigits(month) && ValueOf(month[..4]) == today.year && ValueOf(month[4..]) == today.month
  {
    var r := LogRoot(login) + "\\" + Yyyymm(today);
    assert r[|r| - 6..] == Yyyymm(today);
    r
  }

  /** `<month folder>/<YYYYMMDD>_<login>.log` (line 14). */
  function BaseName(login: string, today: Date): (r: string)
    requires Valid(today)
  {
    MonthFolder(login, today) + "/" + Yyyymmdd(today) + "_" + login + ".log"
  }

  /** The base name is the month folder, a slash, today's stamp, the login, and the `.log` extension. */
  lemma BaseNameParts(login: string, today: Date)
    requires Valid(today)
    ensures var r := BaseName(login, today);
            var folder := MonthFolder(login, today);
            && |r| == |folder| + 14 + |login|
            && r[..|folder|] == folder && r[|folder|] == '/'
            && ParseYyyymmdd(r[|folder| + 1..|folder| + 9]) == today
            && r[|folder| + 9] == '_'
            && r[|folder| + 10..|r| - 4] == login
            && r[|r| - 4..] == ".log"
  {
    var folder := MonthFolder(login, today);
    NameLayout(folder, Yyyymmdd(today), login);
    YyyymmddRoundTrip(today);
  }

  /** Where each part of `<folder>/<stamp>_<login>.log` sits, for an eight-character stamp. */
  lemma NameLayout(folder: string, stamp: string, login: string)
    requires |stamp| == 8
    ensures var r := folder + "/" + stamp + "_" + login + ".log";
            && |r| == |folder| + 14 + |login|
            && r[..|folder|] == folder && r[|folder|] == '/'
            && r[|folder| + 1..|folder| + 9] == stamp
            && r[|folder| + 9] == '_'
            && r[|folder| + 10..|r| - 4] == login
            && r[|r| - 4..] == ".log"
  {
  }

  /** `filename.split(".log")[0] + '_' + str(expand) + ".log"` (line 21). */
  function Candidate(base: string, expand: nat): string
  {
    BeforeFirst(base, ".log") + "_" + NatToString(expand) + ".log"
  }

  /** Distinct counters give distinct candidate names. */
  lemma CandidateInjective(base: string, n: nat, m: nat)
    requires Candidate(base, n) == Candidate(base, m)
    ensures n == m
  {
    var stem := BeforeFirst(base, ".log") + "_";
    var a, b := Candidate(base, n), Candidate(base, m);
    assert a == stem + NatToString(n) + ".log";
    assert b == stem + NatToString(m) + ".log";
    assert |NatToString(n)| == |NatToString(m)|;
    assert a[|stem|..|a| - 4] == NatToString(n);
    assert b[|stem|..|b| - 4] == NatToString(m);
    NatToStringInjective(n, m);
  }

  /**
   * When no `.log` occurs before the extension, the counter goes just before
   * it: `<stem>.log` becomes `<stem>_<n>.log`. An occurrence cannot straddle
   * the extension, since no proper suffix of `.log` starts it again.
   */
  lemma CounterBeforeExtension(stem: string, n: nat)
    requires !Contains(stem, ".log")
    ensures Candidate(stem + ".log", n) == stem + "_" + NatToString(n) + ".log"
  {
    var s := stem + ".log";
    assert MatchAt(s, ".log", |stem|);
    forall j | 0 <= j < |stem|
      ensures !MatchAt(s, ".log", j)
    {
      if j + 4 <= |stem| {
        assert s[j..j + 4] == stem[j..j + 4];
        assert !MatchAt(stem, ".log", j);
      } else {
        assert s[j..j + 4][|stem| - j] == '.';
      }
    }
    assert Contains(s, ".log");
    var r := BeforeFirst(s, ".log");
    assert |r| == |stem|;
    assert r == s[..|stem|] == stem;
  }

  /** The candidates with counters 2 to `expand`: the names the search has found taken. */
  function Passed(base: string, expand: nat): (r: set<string>)
    ensures forall m: nat :: 2 <= m <= expand ==> Candidate(base, m) in r
    decreases expand
  {
    if expand < 2 then {} else Passed(base, expand - 1) + {Candidate(base, expand)}
  }

  /** A candidate with a larger counter is not among those passed. */
  lemma {:induction false} NotPassed(base: string, k: nat, n: nat)
    requires k < n
    ensures Candidate(base, n) !in Passed(base, k)
    decreases k
  {
    if k >= 2 {
      NotPassed(base, k - 1, n);
      if Candidate(base, n) == Candidate(base, k) {
        CandidateInjective(base, n, k);
      }
    }
  }

  /** Distinct counters name distinct files, so `expand - 1` of them have been passed. */
  lemma {:induction false} PassedSize(base: string, expand: nat)
    requires expand >= 1
    ensures |Passed(base, expand)| == expand - 1
    decreases expand
  {
    if expand >= 2 {
      PassedSize(base, expand - 1);
      NotPassed(base, expand - 1, expand);
    }
  }

  /**
   * The search of lines 17-26: `base` when it is free; otherwise the
   * candidate with the smallest counter from 2 up that is free. The loop
   * ends because the names it passes are distinct and all exist, and
   * finitely many files exist.
   */
  method FreeName(base: string, existing: set<string>) returns (filename: string)
    ensures base !in existing ==> filename == base
    ensures base in existing ==>
              && filename !in existing
              && exists n: nat :: n >= 2 && filename == Candidate(base, n) &&
                                  forall m: nat :: 2 <= m < n ==> Candidate(base, m) in existing
  {
    filename := base;
    if base in existing {
      var expand: nat := 1;
      while true
        invariant expand >= 1 && Passed(base, expand) <= existing
        decreases |existing| - (expand - 1)
      {
        PassedSize(base, expand);
        SubsetSize(Passed(base, expand), existing);
        expand := expand + 1;
        var newFilename := Candidate(base, expand);
        if newFilename in existing {
          continue;
        } else {
          filename := newFilename;
          assert forall m: nat :: 2 <= m < expand ==> Candidate(base, m) in existing;
          break;
        }
      }
    }
  }

  /** `initiate_log_file` (lines 7-28): the free name for today's log of `login`. */
  method InitiateLogFile(today: Date, login: string, existing: set<string>) returns (filename: string)
    requires Valid(today)
    ensures var base := BaseName(login, today);
            && (base !in existing ==> filename == base)
            && (base in existing ==>
                  && filename !in existing
                  && exists n: nat :: n >= 2 && filename == Candidate(base, n) &&
                                      forall m: nat :: 2 <= m < n ==> Candidate(base, m) in existing)
  {
    filename := FreeName(BaseName(login, today), existing);
  }

  /** A subset is no larger than its superset. */
  lemma SubsetSize<T>(a: set<T>, b: set<T>)
    requires a <= b
    ensures |a| <= |b|
  {
    assert b == a + (b - a);
  }
}
