/** Amounts of the two resources that containers request and nodes offer. */
module Resources {
  datatype Resource = CPU | BW

  datatype Vec = Vec(cpu: int, bw: int) {
    function At(r: Resource): int { if r == CPU then cpu else bw }
    function Minus(v: Vec): Vec { Vec(cpu - v.cpu, bw - v.bw) }
    predicate FitsIn(node: Vec) { cpu <= node.cpu && bw <= node.bw }
  }

  function Total(vs: seq<Vec>, r: Resource): int {
    if vs == [] then 0 else Total(vs[..|vs| - 1], r) + vs[|vs| - 1].At(r)
  }

  lemma {:induction false} TotalAfterWrite(vs: seq<Vec>, i: nat, v: Vec, r: Resource)
    requires i < |vs|
    ensures Total(vs[i := v], r) == Total(vs, r) + v.At(r) - vs[i].At(r)
  {
    var n := |vs| - 1;
    if i == n {
      assert vs[i := v][..n] == vs[..n];
    } else {
      assert vs[i := v][..n] == vs[..n][i := v];
      TotalAfterWrite(vs[..n], i, v, r);
    }
  }

  ghost predicate NonNegative(vs: seq<Vec>) {
    forall v <- vs :: v.cpu >= 0 && v.bw >= 0
  }

  lemma {:induction false} TotalNonNegative(vs: seq<Vec>, r: Resource)
    requires NonNegative(vs)
    ensures Total(vs, r) >= 0
  {
    if vs != [] { TotalNonNegative(vs[..|vs| - 1], r); }
  }
}
