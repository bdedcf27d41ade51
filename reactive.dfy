/** Capacitors and inductors: components with a stored value and a frequency-dependent,
    purely imaginary impedance and admittance (floating point computed over the reals). */
module Reactive {
  import opened CircuitEnums
  import opened Topology
  import opened ComplexNumbers

  /** The value of M_PI. */
  const Pi: real := 3.14159265358979323846

  /** Angular frequency ω = 2πf. */
  function AngularFrequency(frequency: real): real {
    2.0 * Pi * frequency
  }

  /** ω·x is non-zero exactly when neither the frequency nor x is zero. */
  lemma OmegaProductNonZero(frequency: real, x: real)
    ensures AngularFrequency(frequency) * x != 0.0 <==> frequency != 0.0 && x != 0.0
  {
    if frequency != 0.0 && x != 0.0 {
      assert 2.0 * Pi != 0.0;
      assert (2.0 * Pi) * frequency != 0.0;
    }
  }

  /** The runtime errors the two classes throw. */
  datatype ReactanceError = ZeroFrequency | ZeroCapacitance | ZeroInductance

  datatype Result<T> = Ok(value: T) | Err(error: ReactanceError)

  /** A capacitor: a base component (for its connections) and a capacitance in farads. */
  class Capacitor {
    const base: Component
    var capacitance: real

    constructor (id: ComponentId, capacitance: real)
      ensures fresh(base) && base.id == id && base.kind == ComponentType.Capacitor && base.connections == []
      ensures GetCapacitance() == capacitance
    {
      base := new Component(id);
      this.capacitance := capacitance;
      new;
      base.kind := ComponentType.Capacitor;
    }

    function GetCapacitance(): real
      reads this
    {
      capacitance
    }

    method SetCapacitance(capacitance: real)
      modifies this`capacitance
      ensures GetCapacitance() == capacitance
    {
      this.capacitance := capacitance;
    }

    /** Z = -j / (ωC); undefined, and refused, at zero frequency (checked first) and at zero
        capacitance. */
    function GetImpedance(frequency: real): (r: Result<Complex>)
      reads this
      ensures r == Err(ZeroFrequency) <==> frequency == 0.0
      ensures r == Err(ZeroCapacitance) <==> frequency != 0.0 && capacitance == 0.0
      ensures r.Ok? <==> frequency != 0.0 && capacitance != 0.0
      ensures r.Ok? ==> r.value.re == 0.0 && r.value.im * (AngularFrequency(frequency) * capacitance) == -1.0
    {
      if frequency == 0.0 then Err(ZeroFrequency)
      else if capacitance == 0.0 then Err(ZeroCapacitance)
      else
        var omega := AngularFrequency(frequency);
        OmegaProductNonZero(frequency, capacitance);
        Ok(Complex(0.0, -1.0 / (omega * capacitance)))
    }

    /** Y = jωC, computed without a guard: zero at zero frequency, and the reciprocal of the
        impedance wherever that is defined. */
    function GetAdmittance(frequency: real): (r: Complex)
      reads this
      ensures r.re == 0.0
      ensures frequency == 0.0 || capacitance == 0.0 ==> r == Zero
      ensures frequency > 0.0 && capacitance > 0.0 ==> r.im > 0.0
      ensures GetImpedance(frequency).Ok? ==> Mul(GetImpedance(frequency).value, r) == One
    {
      var omega := AngularFrequency(frequency);
      OmegaProductNonZero(frequency, capacitance);
      Complex(0.0, omega * capacitance)
    }

    /** Wherever the impedance is defined, the unguarded admittance is exactly its reciprocal. */
    lemma AdmittanceIsReciprocal(frequency: real)
      requires GetImpedance(frequency).Ok?
      ensures GetImpedance(frequency).value != Zero
      ensures GetAdmittance(frequency) == ImaginaryReciprocal(GetImpedance(frequency).value)
    {
      ImaginaryReciprocalUnique(GetImpedance(frequency).value, GetAdmittance(frequency));
    }
  }

  /** An inductor: a base component (for its connections) and an inductance in henries. */
  class Inductor {
    const base: Component
    var inductance: real

    constructor (id: ComponentId, inductance: real)
      ensures fresh(base) && base.id == id && base.kind == ComponentType.Inductor && base.connections == []
      ensures GetInductance() == inductance
    {
      base := new Component(id);
      this.inductance := inductance;
      new;
      base.kind := ComponentType.Inductor;
    }

    function GetInductance(): real
      reads this
    {
      inductance
    }

    method SetInductance(inductance: real)
      modifies this`inductance
      ensures GetInductance() == inductance
    {
      this.inductance := inductance;
    }

    /** Z = jωL, computed without a guard: zero at zero frequency or zero inductance. */
    function GetImpedance(frequency: real): (r: Complex)
      reads this
      ensures r.re == 0.0
      ensures r == Zero <==> frequency == 0.0 || inductance == 0.0
      ensures frequency > 0.0 && inductance > 0.0 ==> r.im > 0.0
    {
      var omega := AngularFrequency(frequency);
      OmegaProductNonZero(frequency, inductance);
      Complex(0.0, omega * inductance)
    }

    /** Y = 1 / Z = -j / (ωL); undefined, and refused, at zero frequency (checked first) and at
        zero inductance. */
    function GetAdmittance(frequency: real): (r: Result<Complex>)
      reads this
      ensures r == Err(ZeroFrequency) <==> frequency == 0.0
      ensures r == Err(ZeroInductance) <==> frequency != 0.0 && inductance == 0.0
      ensures r.Ok? <==> frequency != 0.0 && inductance != 0.0
      ensures r.Ok? ==> Mul(GetImpedance(frequency), r.value) == One
      ensures r.Ok? ==> r.value.re == 0.0 && r.value.im * (AngularFrequency(frequency) * inductance) == -1.0
    {
      if frequency == 0.0 then Err(ZeroFrequency)
      else if inductance == 0.0 then Err(ZeroInductance)
      else Ok(ImaginaryReciprocal(GetImpedance(frequency)))
    }

    /** Wherever the admittance is defined, the unguarded impedance is exactly its reciprocal. */
    lemma ImpedanceIsReciprocal(frequency: real)
      requires GetAdmittance(frequency).Ok?
      ensures GetAdmittance(frequency).value != Zero
      ensures GetImpedance(frequency) == ImaginaryReciprocal(GetAdmittance(frequency).value)
    {
      var y := GetAdmittance(frequency).value;
      var z := GetImpedance(frequency);
      assert Mul(y, z) == Mul(z, y);
      ImaginaryReciprocalUnique(y, z);
    }
  }
}
