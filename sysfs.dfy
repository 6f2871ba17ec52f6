/**
  * A snapshot of the sysfs tree and the absence-tolerant readers the scripts
  * use on it (`read_str`, `read_int`).
  */
module Sysfs {
  import opened Wrappers
  import opened Text

  /**
    * Path to file contents. A path that is not a key does not exist; a key
    * mapped to None exists but reading it raises OSError (permissions, a
    * directory, a driver that refuses the read).
    */
  type FileMap = map<string, Option<string>>

  /** The Python exceptions that escape the scripts' own handlers. */
  datatype Error = ValueError | OSError | IndexError

  const CpuBase: string := "/sys/devices/system/cpu"
  const PolicyBase: string := "/sys/devices/system/cpu/cpufreq/policy0"

  /** `Path(dir) / name` */
  function Child(dir: string, name: string): string {
    dir + "/" + name
  }

  /** `CPU_BASE / f"cpu{n}"` */
  function CpuDir(n: int): string {
    Child(CpuBase, "cpu" + ShowInt(n))
  }

  /** The sibling list of one entry of the CPU directory. */
  function SiblingsPath(cpuPath: string): string {
    Child(cpuPath, "topology/thread_siblings_list")
  }

  /** `read_str`: the file's text, or None when it is missing or unreadable. */
  function ReadStr(fs: FileMap, path: string): (r: Option<string>)
    ensures r.Some? <==> path in fs && fs[path].Some?
    ensures r.Some? ==> r.value == fs[path].value
  {
    if path in fs then fs[path] else None
  }

  /**
    * `read_int`: `int(text.strip())` of the file's text, or None when the file
    * is missing, unreadable, or its text is not a base-10 integer.
    */
  function ReadInt(fs: FileMap, path: string): (r: Option<int>)
    ensures r.Some? ==> ReadStr(fs, path).Some?
  {
    match ReadStr(fs, path)
    case None => None
    case Some(text) => PyInt(Strip(text))
  }

  /** `read_int` agrees with `int()` of the file's whole text. */
  lemma ReadIntIsInt(fs: FileMap, path: string)
    requires path in fs && fs[path].Some?
    ensures ReadInt(fs, path) == PyInt(fs[path].value)
  {
    StripTwice(fs[path].value);
  }

  /** Stripping twice is stripping once, so `int(text.strip())` is `int(text)`. */
  lemma StripTwice(s: string)
    ensures Strip(Strip(s)) == Strip(s)
  {
    var t := Strip(s);
    assert Unpadded(t) by {
      var l := StripLeft(s);
      if t != [] {
        assert t == l[..|t|];
      }
    }
    StripUnpadded(t);
  }

  /**
    * A sysfs integer file holds the decimal number and a trailing newline;
    * `read_int` gives back exactly that number.
    */
  lemma ReadIntOfRendered(fs: FileMap, path: string, n: int)
    requires path in fs && fs[path] == Some(ShowInt(n) + "\n")
    ensures ReadInt(fs, path) == Some(n)
  {
    var s := ShowInt(n);
    StripNewline(s);
    StripUnpadded(s);
    ParseShowInt(n);
    assert ReadStr(fs, path) == Some(s + "\n");
  }

  /** A file whose text is not an integer reads as absent, like a missing one. */
  lemma ReadIntOfMalformed(fs: FileMap, path: string, text: string, i: nat)
    requires path in fs && fs[path] == Some(text)
    requires 0 < i < |Strip(text)| && !IsDigit(Strip(text)[i])
    ensures ReadInt(fs, path) == None
  {
    var t := Strip(text);
    assert ParseDecimal(t).None? by {
      assert !IsDigit(t[i]) && i != 0;
    }
    assert ReadInt(fs, path) == ParseDecimal(t) by {
      StripTwice(text);
      assert ReadStr(fs, path) == Some(text);
    }
  }
}
