/** The one-time codes both reset flows mail out. */
module ResetCode {
  import opened Js

  /** The 6-digit code `Math.floor(100000 + Math.random() * 900000)`, for a
      draw below 900000. */
  function Otp(draw: nat): (s: string)
    requires draw < 900000
    ensures |s| == 6 && AllRadixDigits(s, false) && s[0] != '0'
    ensures RadixValue(s, false) == 100000 + draw
  {
    SixDigits(100000 + draw);
    NatToStringValue(100000 + draw);
    NatToString(100000 + draw)
  }

  lemma {:induction false} SixDigits(n: nat)
    requires 100000 <= n < 1000000
    ensures |NatToString(n)| == 6
  {
    var n1 := n / 10;
    var n2 := n1 / 10;
    var n3 := n2 / 10;
    var n4 := n3 / 10;
    var n5 := n4 / 10;
    assert 1 <= n5 < 10;
    assert |NatToString(n4)| == 2;
    assert |NatToString(n3)| == 3;
    assert |NatToString(n2)| == 4;
    assert |NatToString(n1)| == 5;
  }
}
