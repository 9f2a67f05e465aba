/** Unix paths as text, with `Path::join` (`PathBuf::push`): an absolute
    right-hand side replaces the left one; otherwise one `/` is put between
    them unless the left side is empty or already ends in `/`. */
module Paths {

  predicate IsAbsolute(p: string) {
    p != [] && p[0] == '/'
  }

  function Join(base: string, rel: string): (r: string)
    ensures IsAbsolute(rel) ==> r == rel
    ensures !IsAbsolute(rel) ==> |r| >= |rel| && r[|r| - |rel|..] == rel
    ensures !IsAbsolute(rel) && base == [] ==> r == rel
    ensures !IsAbsolute(rel) && base != [] ==>
      var head := r[..|r| - |rel|];
      (head == base || head == base + "/") && head[|head| - 1] == '/'
  {
    if IsAbsolute(rel) then rel
    else if base == [] || base[|base| - 1] == '/' then base + rel
    else base + "/" + rel
  }
}
