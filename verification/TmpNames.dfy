/** Names of the temporary files that metadata is written to before it replaces the real file. */
module TmpNames {
  import opened Decimals

  /** unique_tmp_path, for a process id and a value of its counter */
  function TmpName(file: string, pid: nat, counter: nat): string {
    "." + file + "." + DecimalNat(pid) + "." + DecimalNat(counter) + ".tmp"
  }

  /** The name is hidden, leads with the file's, and ends in `.tmp`. */
  lemma TmpNameReads(file: string, pid: nat, counter: nat)
    ensures ("." + file + ".") <= TmpName(file, pid, counter)
    ensures var rest := TmpName(file, pid, counter)[|file| + 2..];
            rest == DecimalNat(pid) + "." + DecimalNat(counter) + ".tmp"
  {
    var s, rest := TmpName(file, pid, counter), DecimalNat(pid) + "." + DecimalNat(counter) + ".tmp";
    assert s == "." + file + "." + rest;
  }

  /** Only the last dot can separate a dot-free part from the rest. */
  lemma SplitAtLastDot(x: string, c: string, y: string, d: string)
    requires '.' !in c && '.' !in d && x + "." + c == y + "." + d
    ensures x == y && c == d
  {
    var s := x + "." + c;
    assert s[|x|] == '.' && s[|y|] == '.';
    assert forall k :: |x| < k < |s| ==> s[k] != '.' by {
      assert s[|x| + 1..] == c;
      assert forall k :: |x| < k < |s| ==> s[k] == c[k - |x| - 1];
    }
    assert forall k :: |y| < k < |s| ==> s[k] != '.' by {
      assert s[|y| + 1..] == d;
      assert forall k :: |y| < k < |s| ==> s[k] == d[k - |y| - 1];
    }
    assert s[..|x|] == x && s[..|y|] == y && s[|x| + 1..] == c && s[|y| + 1..] == d;
  }

  lemma DecimalHasNoDot(n: nat)
    ensures '.' !in DecimalNat(n)
  {
    DecimalNatRoundTrip(n);
  }

  /** Different files, processes or counts have different temporary names. */
  lemma TmpNamesDiffer(file: string, pid: nat, counter: nat, otherFile: string, otherPid: nat, otherCounter: nat)
    requires TmpName(file, pid, counter) == TmpName(otherFile, otherPid, otherCounter)
    ensures file == otherFile && pid == otherPid && counter == otherCounter
  {
    var s := TmpName(file, pid, counter);
    var x, y := "." + file + "." + DecimalNat(pid), "." + otherFile + "." + DecimalNat(otherPid);
    assert s[..|s| - 4] == x + "." + DecimalNat(counter);
    assert s[..|s| - 4] == y + "." + DecimalNat(otherCounter);
    DecimalHasNoDot(counter);
    DecimalHasNoDot(otherCounter);
    SplitAtLastDot(x, DecimalNat(counter), y, DecimalNat(otherCounter));
    DecimalHasNoDot(pid);
    DecimalHasNoDot(otherPid);
    SplitAtLastDot("." + file, DecimalNat(pid), "." + otherFile, DecimalNat(otherPid));
    assert ("." + file)[1..] == file && ("." + otherFile)[1..] == otherFile;
    DecimalNatRoundTrip(pid);
    DecimalNatRoundTrip(otherPid);
    DecimalNatRoundTrip(counter);
    DecimalNatRoundTrip(otherCounter);
  }

  lemma TmpIsNotTheFile(file: string, pid: nat, counter: nat)
    ensures TmpName(file, pid, counter) != file
  {
    assert |TmpName(file, pid, counter)| > |file|;
  }
}
