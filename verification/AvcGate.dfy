/** Which frames the video converters take and when a header is due, over whole runs
    (crates/rtmp/src/avc.rs:52-231). */
module AvcGate {
  import opened Bytes
  import opened Elementary
  import opened Avc
  import opened AvcRoundTrip

  // ----- the receiving side -----

  /** A sequence header that is taken: its record decodes and has a length field of one, two or four bytes. */
  predicate Configures(codec: HeaderCodec, f: VideoFrame) {
    && f.avc && f.kind == Some(SequenceHeader) && |f.payload| <= 262_144
    && codec.fromBytes(f.payload).Some? && codec.fromBytes(f.payload).value.lengthSizeMinusOne in {0, 1, 3}
  }

  predicate Restarts(codec: HeaderCodec, f: VideoFrame) {
    Configures(codec, f) || (f.avc && f.kind == Some(EndOfSequence))
  }

  function ConfigFrom(header: AvcHeader): DecoderConfig {
    DecoderConfig(header.lengthSizeMinusOne as int + 1, header.sps, header.pps)
  }

  lemma OneFrame(codec: HeaderCodec, s: Ingest, f: VideoFrame)
    requires IngestInv(s)
    ensures var (next, r) := IngestPush(codec, s, f);
            && next.config == (if Configures(codec, f) then Some(ConfigFrom(codec.fromBytes(f.payload).value))
                               else s.config)
            && (next.waiting <==> Restarts(codec, f) || (s.waiting && !(r.Ok? && r.value.Some?)))
  {
    hide AvccUnits, HasIdr, WithoutParameterSets, AnnexB, FramedSize;
  }

  /** Over every run: the configuration in force is that of the last sequence header taken. */
  lemma {:induction false} ConfiguredIff(codec: HeaderCodec, frames: seq<VideoFrame>, k: nat)
    requires k <= |frames|
    ensures var config := IngestAt(codec, FRESH_INGEST, frames, k).config;
            && (config.None? <==> forall j :: 0 <= j < k ==> !Configures(codec, frames[j]))
            && forall j :: 0 <= j < k && Configures(codec, frames[j])
                           && (forall i :: j < i < k ==> !Configures(codec, frames[i])) ==>
                 config == Some(ConfigFrom(codec.fromBytes(frames[j].payload).value))
    decreases k
  {
    hide IngestPush, Configures, ConfigFrom;
    if k > 0 {
      ConfiguredIff(codec, frames, k - 1);
      OneFrame(codec, IngestAt(codec, FRESH_INGEST, frames, k - 1), frames[k - 1]);
    }
  }

  /** Over every run: the ingest waits for an IDR if and only if a sequence header was taken, or a sequence ended,
      and no access unit has been returned since. */
  lemma {:induction false} WaitingIff(codec: HeaderCodec, frames: seq<VideoFrame>, k: nat)
    requires k <= |frames|
    ensures IngestAt(codec, FRESH_INGEST, frames, k).waiting <==>
            exists j :: 0 <= j < k && Restarts(codec, frames[j])
                        && forall i :: j < i < k ==> ReturnedAt(codec, FRESH_INGEST, frames, i).None?
    decreases k
  {
    hide IngestPush, Restarts;
    if k > 0 {
      WaitingIff(codec, frames, k - 1);
      OneFrame(codec, IngestAt(codec, FRESH_INGEST, frames, k - 1), frames[k - 1]);
      assert ReturnedAt(codec, FRESH_INGEST, frames, k - 1).Some? <==>
             var r := IngestPush(codec, IngestAt(codec, FRESH_INGEST, frames, k - 1), frames[k - 1]).1;
             r.Ok? && r.value.Some?;
      if j :| 0 <= j < k - 1 && Restarts(codec, frames[j])
              && (forall i :: j < i < k - 1 ==> ReturnedAt(codec, FRESH_INGEST, frames, i).None?)
              && ReturnedAt(codec, FRESH_INGEST, frames, k - 1).None? {
        assert forall i :: j < i < k ==> ReturnedAt(codec, FRESH_INGEST, frames, i).None?;
      }
    }
  }

  /** Over every run, exactly which frames return an access unit, given the configuration and the gate. */
  lemma ReturnedIff(codec: HeaderCodec, frames: seq<VideoFrame>, k: nat)
    requires k < |frames|
    ensures var s, f := IngestAt(codec, FRESH_INGEST, frames, k), frames[k];
            ReturnedAt(codec, FRESH_INGEST, frames, k).Some? <==>
            && f.avc && f.kind == Some(NalUnits) && |f.payload| <= 16_777_216 && s.config.Some?
            && AvccUnits(f.payload, s.config.value.lengthBytes).Ok?
            && var units := AvccUnits(f.payload, s.config.value.lengthBytes).value;
               var sets := if s.waiting then s.config.value.sps + s.config.value.pps else [];
               && (s.waiting ==> HasIdr(units))
               && 0 < FramedSize(sets + WithoutParameterSets(units)) <= 16_777_216
  {
    hide AvccUnits, HasIdr, WithoutParameterSets, AnnexB, ParseConfig, IngestAt;
    var s, f := IngestAt(codec, FRESH_INGEST, frames, k), frames[k];
    if f.avc && f.kind == Some(NalUnits) && s.config.Some? && AvccUnits(f.payload, s.config.value.lengthBytes).Ok? {
      var units := AvccUnits(f.payload, s.config.value.lengthBytes).value;
      var sets := if s.waiting then s.config.value.sps + s.config.value.pps else [];
      assert FramedSize(sets + WithoutParameterSets(units)) == 0 <==> sets + WithoutParameterSets(units) == [];
    }
  }

  // ----- the publishing side -----

  /** A successful call sends a sequence header if and only if both kinds of parameter sets are known and either
      none was sent yet or the call brings sets that differ from those known. */
  lemma HeaderSentIff(codec: HeaderCodec, p: Publisher, dts: U32, offset: int, units: seq<NalUnit>)
    requires WellParsed(units) && PublishUnits(codec, p, dts, offset, units).1.Ok?
    ensures var frames := PublishUnits(codec, p, dts, offset, units).1.value;
            var sps, pps := OfType(units, 7), OfType(units, 8);
            (frames != [] && frames[0].kind == Some(SequenceHeader)) <==>
            && (sps != [] || p.sps != []) && (pps != [] || p.pps != [])
            && (!p.headerSent || (sps != [] && sps != p.sps) || (pps != [] && pps != p.pps))
  {
    hide OfType, MediaOf, BuildHeader, FramedSize, GoodUnits;
  }
}
