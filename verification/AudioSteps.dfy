/** How the marshalled memory grows word by word. */
module AudioSteps {
  import opened AudioLayout

  // ----- writing step by step

  lemma LoadAt(memory: seq<Word>, ptr: nat, k: nat)
    requires ptr % 4 == 0 && ptr / 4 + k < |memory|
    ensures LoadFrom(memory)(ptr + 4 * k) == memory[ptr / 4 + k]
  {
    assert (ptr + 4 * k) / 4 == ptr / 4 + k;
  }

  /** What is laid out determines the whole memory. */
  lemma LaidIsLay(m: seq<Word>, was: seq<Word>, base: nat, data: nat, structs: seq<Word>, words: seq<Word>)
    requires base % 4 == 0 && data % 4 == 0 && base + 4 * |structs| <= data && data / 4 + |words| <= |was|
    requires Laid(m, was, base, data, structs, words)
    ensures m == Lay(was, base, data, structs, words)
  {
    var lay := Lay(was, base, data, structs, words);
    LayLaid(was, base, data, structs, words);
    forall w | 0 <= w < |was| ensures m[w] == lay[w] {
      if Between(w, base, |structs|) {
        SameWord(m, lay, base, structs, w);
      } else if Between(w, data, |words|) {
        SameWord(m, lay, data, words, w);
      }
    }
  }

  lemma SameWord(m: seq<Word>, n: seq<Word>, ptr: nat, words: seq<Word>, w: nat)
    requires ptr % 4 == 0 && Between(w, ptr, |words|) && w < |m| && w < |n|
    requires Holds(LoadFrom(m), ptr, words) && Holds(LoadFrom(n), ptr, words)
    ensures m[w] == n[w]
  {
    var k := w - ptr / 4;
    LoadAt(m, ptr, k);
    LoadAt(n, ptr, k);
    assert LoadFrom(m)(ptr + 4 * k) == words[k] == LoadFrom(n)(ptr + 4 * k);
  }

  lemma PutStructs(m: seq<Word>, was: seq<Word>, base: nat, data: nat, structs: seq<Word>, words: seq<Word>, more: seq<Word>)
    requires base % 4 == 0 && data % 4 == 0 && base + 4 * (|structs| + |more|) <= data && data / 4 + |words| <= |was|
    requires Laid(m, was, base, data, structs, words)
    ensures Laid(Overwrite(m, base / 4 + |structs|, more), was, base, data, structs + more, words)
  {
  }

  lemma PutSamples(m: seq<Word>, was: seq<Word>, base: nat, data: nat, structs: seq<Word>, words: seq<Word>, more: seq<Word>)
    requires base % 4 == 0 && data % 4 == 0 && base + 4 * |structs| <= data && data / 4 + |words| + |more| <= |was|
    requires Laid(m, was, base, data, structs, words)
    ensures Laid(Overwrite(m, data / 4 + |words|, more), was, base, data, structs, words + more)
  {
  }
}
