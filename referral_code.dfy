/** The referral code issued to a referrer (`u64` in the source, unbounded here). */
module ReferralCode {
  datatype Code = Code(value: nat)
  {
    /** `Code::default()` */
    static function Default(): (r: Code)
      ensures r.value == 0
    {
      Code(0)
    }

    /** The successor code. */
    function Next(): (r: Code)
      ensures r.value == value + 1
    {
      Code(value + 1)
    }

    function ToU64(): (r: nat)
      ensures FromU64(r) == this
    {
      value
    }

    static function FromU64(v: nat): (r: Code)
      ensures r.value == v
    {
      Code(v)
    }
  }
}
