/** How the two controller versions relate: where `tandberg/tandberg.py`
    agrees with `controller.py` and exactly where it differs. */
module Compare {
  import opened Visca
  import opened Transport
  import Commands
  import Tandberg
  import Legacy

  /** The newer status reading refines the older one: wherever it returns a
      status, the older version returns the same one; it raises in every case
      the older one raises, and additionally on a 0x60 reply whose error code
      is missing or not in its table, where the older version reports 1. */
  lemma StatusesAgree(resp: seq<byte>)
    ensures Tandberg.Interpret(resp).Ok? ==> Tandberg.Interpret(resp) == Legacy.Interpret(resp)
    ensures Legacy.Interpret(resp).Raised? ==> Tandberg.Interpret(resp) == Legacy.Interpret(resp)
    ensures Tandberg.Interpret(resp).Raised? && Legacy.Interpret(resp).Ok? <==>
      |resp| > 0 && resp[0] == 0x60 && (|resp| < 2 || resp[1] !in Tandberg.ErrorMessages)
    ensures Tandberg.Interpret(resp).Raised? && Legacy.Interpret(resp).Ok? ==> Legacy.Interpret(resp) == Ok(1)
  {
    Tandberg.InterpretStatus(resp);
  }

  /** One `send` on the same port does the same thing in both versions, up
      to the status: the same frame is written, the same reply consumed and
      the same bytes dumped; the statuses agree wherever the newer one is a
      status. */
  lemma TransmitsAgree(link: Link, address: seq<byte>, cmd: seq<byte>)
    ensures var x := Transmit(link, address, cmd, Tandberg.Interpret);
            var y := Transmit(link, address, cmd, Legacy.Interpret);
            x.link == y.link && x.echo == y.echo && (x.status.Ok? ==> x.status == y.status)
  {
    if link.Open? && cmd != [] {
      match SplitAtTerminator(link.pending)
      case None =>
      case Some((raw, rest)) =>
        StatusesAgree(Strip(raw));
    }
  }

  /** Steering agrees on every compass direction; "stop" is a KeyError in the
      older version and the fixed payload `0x01 0x06 0x01 0x03 0x03 0x03 0x03`
      in the newer one. */
  lemma SteerAgreesExceptStop(dir: string, panSpeed: seq<byte>, tiltSpeed: seq<byte>)
    ensures dir != "stop" ==>
      Tandberg.SteerPayload(dir, panSpeed, tiltSpeed) == Legacy.SteerPayload(dir, panSpeed, tiltSpeed)
    ensures dir == "stop" ==>
      Legacy.SteerPayload(dir, panSpeed, tiltSpeed) == Raised(KeyError) &&
      Tandberg.SteerPayload(dir, panSpeed, tiltSpeed) == Ok([0x01, 0x06, 0x01, 0x03, 0x03, 0x03, 0x03])
  {
    if dir == "stop" {
      assert dir !in Commands.Compass;
    }
  }

  /** The `Q_*` methods in source order, which is also the order of the
      `qCmd` dict entries. */
  const Inquiries: seq<Legacy.Inquiry> := [
    Legacy.CamId, Legacy.ZoomPos, Legacy.FocusPos, Legacy.FocusMode, Legacy.PtPos, Legacy.Pwr,
    Legacy.WbMode, Legacy.WbTable, Legacy.AeMode, Legacy.Backlight, Legacy.Mirror, Legacy.Flip,
    Legacy.GammaMode, Legacy.GammaTable, Legacy.CallLed, Legacy.PwrLed, Legacy.VidSwitch,
    Legacy.AlsRGain, Legacy.AlsBGain, Legacy.AlsGGain, Legacy.AlsWGain, Legacy.BestView,
    Legacy.UpsideDown]

  /** The k-th `qCmd` entry sends the payload of the k-th `Q_*` method. */
  lemma EntryMatchesInquiry(k: nat)
    requires k < |Tandberg.QueryEntries|
    ensures k < |Inquiries| && Tandberg.QueryEntries[k].1 == Legacy.InquiryPayload(Inquiries[k])
  {
    assert k <= 22;
    if k < 12 {
      assert k in {0, 1, 2, 3, 4, 5, 6, 7, 8, 9, 10, 11};
    } else {
      assert k in {12, 13, 14, 15, 16, 17, 18, 19, 20, 21, 22};
    }
  }

  /** Every `Q_*` method has its place in the list. */
  lemma InquiryListed(q: Legacy.Inquiry)
    ensures exists k :: 0 <= k < |Inquiries| && Inquiries[k] == q
  {
    var k := match q
      case CamId => 0 case ZoomPos => 1 case FocusPos => 2 case FocusMode => 3
      case PtPos => 4 case Pwr => 5 case WbMode => 6 case WbTable => 7
      case AeMode => 8 case Backlight => 9 case Mirror => 10 case Flip => 11
      case GammaMode => 12 case GammaTable => 13 case CallLed => 14 case PwrLed => 15
      case VidSwitch => 16 case AlsRGain => 17 case AlsBGain => 18 case AlsGGain => 19
      case AlsWGain => 20 case BestView => 21 case UpsideDown => 22;
    assert Inquiries[k] == q;
  }

  /** Apart from the two "q_alsGGain" entries, the keys of the `qCmd` dict
      literal are all different. */
  lemma KeysRepeatOnlyAtGGain(k: nat, j: nat)
    requires k < j < |Tandberg.QueryEntries|
    requires k != 19
    ensures Tandberg.QueryEntries[j].0 != Tandberg.QueryEntries[k].0
  {
    var keys := seq(|Tandberg.QueryEntries|, i requires 0 <= i < |Tandberg.QueryEntries| => Tandberg.QueryEntries[i].0);
    assert Tandberg.QueryEntries[j].0 == keys[j] && Tandberg.QueryEntries[k].0 == keys[k];
    // each key is told apart from the others by its length and a few characters
    assert keys[k] != keys[j] by {
      assert k <= 21 && j <= 22;
      if k < 12 {
        assert k in {0, 1, 2, 3, 4, 5, 6, 7, 8, 9, 10, 11};
      } else {
        assert k in {12, 13, 14, 15, 16, 17, 18, 20, 21};
      }
    }
  }

  /** Every query `qCmd` sends is the inquiry of one of the older `Q_*`
      methods, and never that of `Q_alsGGain` (`0x09 0x50 0x52`): the repeated
      key hides it, and "q_alsGGain" sends what `Q_alsWGain` sends. */
  lemma QueriesAreOldInquiries(q: string)
    requires q in Tandberg.QueryTable
    ensures exists i :: i != Legacy.AlsGGain && Tandberg.QueryTable[q] == Legacy.InquiryPayload(i)
    ensures Tandberg.QueryTable[q] != Legacy.InquiryPayload(Legacy.AlsGGain)
    ensures q == "q_alsGGain" ==> Tandberg.QueryTable[q] == Legacy.InquiryPayload(Legacy.AlsWGain)
  {
    Tandberg.QueryGGainShadowed();
    DictValueSource(Tandberg.QueryEntries, q);
    var k :| 0 <= k < |Tandberg.QueryEntries| && Tandberg.QueryEntries[k] == (q, Tandberg.QueryTable[q]) &&
      forall j :: k < j < |Tandberg.QueryEntries| ==> Tandberg.QueryEntries[j].0 != q;
    EntryMatchesInquiry(k);
    assert Inquiries[k] != Legacy.AlsGGain;
  }

  /** Every older `Q_*` method except `Q_alsGGain` has a `qCmd` key that
      sends the same inquiry. */
  lemma OldInquiriesAreQueries(i: Legacy.Inquiry)
    requires i != Legacy.AlsGGain
    ensures exists q :: q in Tandberg.QueryTable && Tandberg.QueryTable[q] == Legacy.InquiryPayload(i)
  {
    InquiryListed(i);
    var k :| 0 <= k < |Inquiries| && Inquiries[k] == i;
    assert k != 19;
    forall j | k < j < |Tandberg.QueryEntries|
      ensures Tandberg.QueryEntries[j].0 != Tandberg.QueryEntries[k].0
    {
      KeysRepeatOnlyAtGGain(k, j);
    }
    DictKeepsLast(Tandberg.QueryEntries, k);
    EntryMatchesInquiry(k);
  }

  /** `pt_direct` on fresh controllers: the newer version sends its default
      `panSpeed`/`tiltSpeed` (0x0F), the older its default
      `panSpeedMax`/`tiltSpeedMax` (0x01); the two payloads agree everywhere
      except those two speed bytes. */
  lemma PtDirectDefaults(pan: int, tilt: int)
    requires 0 <= pan < 0x1_0000 && 0 <= tilt < 0x1_0000
    ensures var newer := Commands.PanTiltDirect(Tandberg.DefaultSpeed, Tandberg.DefaultSpeed, pan, tilt);
            var older := Commands.PanTiltDirect(Legacy.DefaultSpeed, Legacy.DefaultSpeed, pan, tilt);
            newer.Ok? && older.Ok? && |newer.value| == |older.value| == 13 &&
            newer.value[3..5] == [0x0F, 0x0F] && older.value[3..5] == [0x01, 0x01] &&
            newer.value[..3] == older.value[..3] && newer.value[5..] == older.value[5..]
  {
    var positions := ToVisca2b(pan).value + ToVisca2b(tilt).value;
    assert Commands.PanTiltDirect(Tandberg.DefaultSpeed, Tandberg.DefaultSpeed, pan, tilt).value
        == [0x01, 0x06, 0x02, 0x0F, 0x0F] + positions;
    assert Commands.PanTiltDirect(Legacy.DefaultSpeed, Legacy.DefaultSpeed, pan, tilt).value
        == [0x01, 0x06, 0x02, 0x01, 0x01] + positions;
  }
}
