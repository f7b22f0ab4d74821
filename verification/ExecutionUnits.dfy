/** Execution-unit vectors of the gas model, in the order A, L, S, M, D. */
module ExecutionUnits {

  datatype Units = Units(alu: int, load: int, store: int, mul: int, div: int) {
    function Plus(o: Units): Units {
      Units(alu + o.alu, load + o.load, store + o.store, mul + o.mul, div + o.div)
    }

    function Minus(o: Units): Units {
      Units(alu - o.alu, load - o.load, store - o.store, mul - o.mul, div - o.div)
    }

    predicate Fits(pool: Units) {
      && alu <= pool.alu && load <= pool.load && store <= pool.store && mul <= pool.mul && div <= pool.div
    }
  }

  function Nothing(): Units { Units(0, 0, 0, 0, 0) }
  function Alu(): Units { Units(1, 0, 0, 0, 0) }
  function Load(): Units { Units(1, 1, 0, 0, 0) }
  function Store(): Units { Units(1, 0, 1, 0, 0) }
  function Multiply(): Units { Units(1, 0, 0, 1, 0) }
  function Divide(): Units { Units(1, 0, 0, 0, 1) }

  /** What the simulated core owns when nothing executes. */
  function Pools(): Units { Units(4, 4, 4, 1, 1) }
}
